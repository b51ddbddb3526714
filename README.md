# Hookable: hook registry and interception pipeline

This project models the `Hookable` trait of the Sofa Hookable package for
Eloquent models (`src/Hookable.php`), and proves properties of that model in Dafny.

- A hookable class keeps a static table. It maps the name of an intercepted
  method to the closures registered on it, in registration order.
- `hook` appends to that table, and `flushHooks` empties it.
- `boundHooks` looks up a name and binds each closure to the instance the call
  is made on.
- Every intercepted method (`getAttribute`, `setAttribute`, `save`,
  `isDirty`, `toArray`, `replicate`, `__isset`, `__unset`, `queryHook`) has
  the same shape. It gets its bound hooks and builds an argument bag. Then it
  sends a payload through a pipeline to a destination closure.
- The bag usually holds the method's own arguments. `replicate`'s bag also
  holds the instance being copied, under "original".
- `save` calls the parent's save first. When that fails it returns false at
  once, without running any hook.
- In the pipeline the first hook is the outermost wrapper. Each hook receives
  `next` (the rest of the chain), the payload and the bag.

Files:

- `wrappers.dfy`: `Option` and `Result`.
- `arguments.dfy`, module `Arguments`: the argument bag as an
  insertion-ordered list of named values with unique names. It has `get`,
  `set`, `all`, `isEmpty`, `first`, `last` and construction from an
  associative array.
- `pipeline.dfy`, module `Pipeline`: a hook is a `Stage`. From the payload and
  the bag it decides either to call `next` once with a payload of its choice,
  or to return without calling it. It then builds its answer from what `next`
  returned. `Pipe` is the right fold of the stages over the destination.
  `Delivered` is the payload the destination is called with, or `None` when a
  hook cuts the chain.
- `hookable.dfy`, module `Hookable`: `Mixed` (the dynamically typed payloads
  and bag values) and the class `HookRegistry`. Its field
  `hooks: map<string, seq<Closure>>` is the static table. `Hook` and
  `FlushHooks` are methods that change it. `BoundHooks` and the intercepted
  methods are functions that read it. A closure is a function from the
  instance to a `Stage`; binding it to `$this` is applying it to the
  instance. The `Effect` of `setAttribute`, `__unset` and `queryHook` says
  whether the parent's method ran (`reached` is `None` when a hook cut the
  chain). For `setAttribute` and `queryHook` it also holds the payload the
  parent's method received, because that method's side effect is the point
  of the call. `__unset`'s destination ignores its payload, so there
  `reached` only says that the parent's unset ran.

The parent class's behaviour is not part of this model: `parent::getAttribute`,
`parent::save`, `callParent` and the like. It is represented in three ways:

- Most intercepted methods take it as a function parameter, a function of the
  instance and the call's arguments.
- `queryHook`'s `callParent` is a function of the query the hooks pass on, the
  builder method's name and the call's arguments (`$args->all()`). It does not
  take the instance.
- `setAttribute` has no parameter for `parent::setAttribute`. Its only trace is
  `Effect.reached`, the value the setter would receive.

## Model

| member | source | states |
|---|---|---|
| `Arguments.Find` | spec/ArgumentBagSpec.php:17-21 | the position found holds the name, no earlier entry has it, and there is none exactly when the name is absent |
| `Arguments.Get` | spec/ArgumentBagSpec.php:17-21 | succeeds exactly when the name is present, with a value stored under it; otherwise fails with `KeyNotFound` for that name |
| `Arguments.Set` | spec/ArgumentBagSpec.php:17-21 | `get` of the name then gives the new value, every other name reads as before, an existing name keeps its position, a new one goes last, and unique names stay unique |
| `Arguments.Of` | spec/ArgumentBagSpec.php:7-9 | the bag built from an array has unique names and, for an array with distinct keys, exactly its entries in order |
| `Arguments.First` | spec/ArgumentBagSpec.php:23-26 | fails with `EmptyContainer` exactly on an empty bag; otherwise it is the value of the first name inserted |
| `Arguments.Last` | spec/ArgumentBagSpec.php:23-26 | fails with `EmptyContainer` exactly on an empty bag; otherwise it is the value of the last name inserted |
| `Arguments.All` | spec/ArgumentBagSpec.php:28-30 | the snapshot lists the names in insertion order, and in a bag with unique names each entry's value is what `get` returns for its name |
| `Arguments.IsEmpty` | spec/ArgumentBagSpec.php:11-15 | an empty bag has no name that `get` can read; a non-empty one can read its first name |
| `Arguments.SampleBagBehaviour` | spec/ArgumentBagSpec.php:7-30 | the bag foo/faz/fux is not empty and an empty one is; `get('foo')` is "bar" and "baz" after `set`; `first` is "bar", `last` is "blox"; `all` is the three entries in order |
| `Pipeline.Pipe` | src/Hookable.php:240-246 | with no hooks the destination answers; when the outermost hook returns without calling `next`, its answer is the result |
| `Pipeline.Delivered` | src/Hookable.php:240-246 | with no hooks the destination receives the payload itself; nothing reaches it when the outermost hook returns without calling `next`, and only a hook can cut the chain |
| `Pipeline.PipeWithoutHooks` | spec/PipelineSpec.php:8-16 | with no hooks the destination gets the payload and its answer is the result |
| `Pipeline.DestinationOnlyAtDelivered` | src/Hookable.php:240-246 | the destination runs at most once, on the delivered payload: destinations that agree there give the same result, and any destination does when a hook cuts the chain |
| `Pipeline.PipeConcat` | src/Hookable.php:240-246 | earlier hooks wrap later ones: piping through `s1 + s2` is piping through `s1` with "pipe through `s2`" as destination |
| `Pipeline.DeliveredConcat` | src/Hookable.php:240-246 | the payload reaching the destination of `s1 + s2` is what `s2` delivers from what `s1` delivers |
| `Pipeline.HaltCutsChain` | src/Hookable.php:240-246 | a hook that returns without calling `next` keeps every later hook and the destination from running; its answer is what the earlier hooks get back |
| `Pipeline.StepsRunInOrder` | spec/PipelineSpec.php:18-33 | hooks that transform the payload and call `next` apply in list order, and the destination sees the result of all of them |
| `Pipeline.PostStepsWrapOutward` | src/Hookable.php:240-246 | answers flow back out through the hooks: with hooks that pass the payload on and post-process what `next` returns, the last hook post-processes the destination's answer first and the first (outermost) hook last |
| `Pipeline.PipesRunInGivenOrder` | spec/PipelineSpec.php:8-33 | "start" through ",first", ",second", ",third" to a destination adding ",end" gives "start,first,second,third,end"; a destination answering "end" with no hooks gives "end" |
| `Pipeline.ArgumentsReachEveryStage` | spec/PipelineSpec.php:35-53 | the hook and the destination see the same bag: with foo = bar the result is "start,pipe-bar,end-bar" |
| `Hookable.Reverse` | src/Hookable.php:107 | same length, element `i` is element `n-1-i` of the input |
| `Hookable.Pipe` | src/Hookable.php:240-246 | with no hooks the result is the destination applied to the payload and the new bag, and the destination received the payload |
| `Hookable.HookRegistry.constructor` | src/Hookable.php:18 | a class starts with an empty hook table |
| `Hookable.HookRegistry.Registered` | src/Hookable.php:256 | the list stored for the name, or no hooks for a name never hooked |
| `Hookable.HookRegistry.Hook` | src/Hookable.php:27-30 | the list for the name is the old list (empty if absent) with the hook at the end; every other name's list is unchanged |
| `Hookable.HookRegistry.FlushHooks` | src/Hookable.php:37-40 | the table has no entries, so every name has no hooks |
| `Hookable.HookRegistry.BoundHooks` | src/Hookable.php:254-261 | as many hooks as are registered, in registration order, each bound to the given instance; none for a name never registered |
| `Hookable.HookRegistry.QueryHook` | src/Hookable.php:67-77 | with no hooks the builder's own method is called on the query with the original arguments; the hooked case is in `QueryHookRunsHooksInOrder`; what its hooks read from the bag is in `QueryHookHooksSeeMethod` |
| `Hookable.HookRegistry.GetAttribute` | src/Hookable.php:86-96 | with no hooks the result is the parent's value for the key |
| `Hookable.HookRegistry.SetAttribute` | src/Hookable.php:105-115 | with no hooks the value reaches the parent's setter unchanged and the call returns null |
| `Hookable.HookRegistry.Save` | src/Hookable.php:123-137 | returns false when the parent's save fails, whatever is hooked; returns true when it succeeds and no hook is registered; the hooked case is in `SaveStepsAnswerTrue` and `SaveHooksSeeOptions` |
| `Hookable.HookRegistry.IsDirty` | src/Hookable.php:145-159 | with no hooks the result is the parent's answer for the given attributes; the hooked case is in `IsDirtyRunsHooksInOrder`; what its hooks read from the bag is in `IsDirtyHooksSeeAttributes` |
| `Hookable.HookRegistry.ToArray` | src/Hookable.php:166-176 | with no hooks the result is the parent's array; the hooked case is in `ToArrayRunsHooksInOrder` |
| `Hookable.HookRegistry.Replicate` | src/Hookable.php:183-193 | with no hooks the result is the parent's copy; the hooked case is in `ReplicateRunsHooksInOrder` and `ReplicateHooksSeeOriginal` |
| `Hookable.HookRegistry.IsSet` | src/Hookable.php:201-211 | with no hooks the result is the parent's answer for the key; the hooked case is in `IsSetRunsHooksInOrder`; what its hooks read from the bag is in `IsSetHooksSeeKey` |
| `Hookable.HookRegistry.Unset` | src/Hookable.php:219-229 | with no hooks the parent's unset runs and its answer is returned; the hooked case is in `UnsetRunsHooksInOrder` and `UnsetHaltSkipsParent` |
| `Hookable.HookRegistry.GetAttributeRunsHooksInOrder` | src/Hookable.php:86-96 | bound hooks on `getAttribute` that transform the value and call `next` (whether or not they use their instance) apply to the parent's value in registration order |
| `Hookable.HookRegistry.GetAttributePostProcessesOutward` | src/Hookable.php:86-96 | `getAttribute` hooks that post-process what `next` returns apply to the parent's value in reverse registration order, so the first registered hook has the last word |
| `Hookable.HookRegistry.SetAttributeRunsHooksInReverse` | src/Hookable.php:105-115 | transforming hooks on `setAttribute` apply in reverse registration order before the value reaches the parent's setter; the call returns null |
| `Hookable.HookRegistry.SetAttributeHaltSkipsParent` | src/Hookable.php:105-115 | a `setAttribute` hook that returns without calling `next` keeps the parent's setter from running; the result is that answer passed back through the hooks registered after it |
| `Hookable.HookRegistry.QueryHookRunsHooksInOrder` | src/Hookable.php:67-77 | with transforming hooks on `queryHook`, the builder's method is called on the query as the hooks transformed it, in registration order, with the call's original arguments |
| `Hookable.HookRegistry.QueryHookHooksSeeMethod` | src/Hookable.php:67-77 | a `queryHook` hook reading its bag finds the builder method's name under "method" and the call's argument bag under "args" |
| `Hookable.HookRegistry.IsDirtyHooksSeeAttributes` | src/Hookable.php:145-159 | an `isDirty` hook reading its bag finds the attributes the call was given under "attributes" |
| `Hookable.HookRegistry.SaveHooksSeeOptions` | src/Hookable.php:123-137 | after a successful parent save, a `save` hook reading its bag finds the save options under "options" |
| `Hookable.HookRegistry.SaveStepsAnswerTrue` | src/Hookable.php:123-137 | after a successful parent save, hooks that transform the payload and call `next` leave the answer `true`, because the destination ignores what it is passed |
| `Hookable.HookRegistry.IsDirtyRunsHooksInOrder` | src/Hookable.php:145-159 | with transforming hooks on `isDirty`, the parent checks the attributes as the hooks passed them on, in registration order |
| `Hookable.HookRegistry.ToArrayRunsHooksInOrder` | src/Hookable.php:166-176 | transforming hooks on `toArray` apply to the parent's array in registration order, and that is the result |
| `Hookable.HookRegistry.ReplicateRunsHooksInOrder` | src/Hookable.php:183-193 | transforming hooks on `replicate` apply to the parent's copy in registration order, and that is the result |
| `Hookable.HookRegistry.ReplicateHooksSeeOriginal` | src/Hookable.php:183-193 | a `replicate` hook reading its bag finds the instance being copied under "original" and the call's argument under "except" |
| `Hookable.HookRegistry.IsSetHooksSeeKey` | src/Hookable.php:201-211 | an `__isset` hook reading its bag finds the key asked about under "key" |
| `Hookable.HookRegistry.IsSetRunsHooksInOrder` | src/Hookable.php:201-211 | transforming hooks on `__isset` apply to the parent's answer in registration order, and that is the result |
| `Hookable.HookRegistry.UnsetRunsHooksInOrder` | src/Hookable.php:219-229 | with hooks that call `next`, the parent's unset runs and its answer is returned |
| `Hookable.HookRegistry.UnsetHaltSkipsParent` | src/Hookable.php:219-229 | an `__unset` hook that returns without calling `next` keeps the parent's unset from running; its answer passes back through the hooks registered before it |
| `Hookable.FlushScenario` | spec/HookableSpec.php:22-40 | hooks on two names give a table of two entries; after `flushHooks` it has none and `getAttribute` answers as the parent does |
| `Hookable.InstanceScopeScenario` | spec/HookableSpec.php:8-20 | a hook that refers to its instance sees the instance `getAttribute` was called on |
| `Hookable.KeyedHookScenario` | src/Hookable.php:86-96 | a hook reading "key" from the bag answers for one key without calling `next`, and passes every other key on to the parent's value |
| `Hookable.OrderScenario` | src/Hookable.php:86-115 | hooks A then B give "value,A,B" from `getAttribute` and write "value,B,A" through `setAttribute` |
| `Hookable.SaveScenario` | src/Hookable.php:123-137 | a successful save with no hooks is true; with a hook registered, a failed parent save is still false and a successful one returns the hook's answer |

## Left out

- The source of the `Pipeline` and `ArgumentBag` classes is not part of this
  model. `Pipeline.Pipe` and the `Arguments` module follow the specs of those
  classes (spec/PipelineSpec.php, spec/ArgumentBagSpec.php).
- Those specs never read an absent name or an empty bag. The model makes `get`
  fail there with `KeyNotFound`, and `first`/`last` fail with `EmptyContainer`.
- The bag is a value here. In the source it is one object shared by reference.
  A hook that calls `set` on it, and a later hook seeing that change, are not
  modelled. Every hook and the destination receive the bag built by `pipe`.
- The model only has hooks that call `next` at most once, always with the bag
  they received. Hooks that call `next` twice, or pass `next` a different bag,
  are not modelled.
- Exceptions raised inside hooks, destinations or parent methods are left out.
  So is their propagation to the caller.
- The behaviour of the Eloquent parent methods and of `callParent` is not
  modelled. `getAttribute`, `save`, `isDirty`, `toArray`, `replicate`,
  `__isset` and `__unset` take it as a parameter of the instance and the call's
  arguments. `queryHook`'s `callParent` takes the query payload, the method
  name and the call's arguments.
- `setAttribute` has no parameter for `parent::setAttribute`: the model keeps
  only the value the setter receives (`Effect.reached`). The side effects of
  the parent methods appear only through `Effect.reached`.
- `newEloquentBuilder` (src/Hookable.php:48-51) is not modelled, because the
  Builder it constructs is not part of this model.
- `isDirty` turning non-array arguments into the list of all call arguments
  (src/Hookable.php:147-149) is not modelled: `IsDirty` takes the attributes
  value as given.
- Hooks are pure functions of the payload and the bag. A hook's own side
  effects on the instance are lost, such as a call to one of the model's
  methods (spec/HookableSpec.php:14). `InstanceScopeScenario` sees the binding
  through the hook's answer instead.
- `bindTo($this, get_class($this))` also sets the closure's class scope. The
  model keeps only the instance: a closure is applied to it.
- The per-class static table is one `HookRegistry` object. Subclasses sharing
  their parent's static property are not modelled. Neither is PHP's conversion
  of numeric-string array keys.
- `Mixed` covers the PHP values the intercepted methods build themselves: null,
  booleans, integers, strings, arrays, an argument bag and a model instance.
  Floats and other objects are not modelled. The query builder that
  `queryHook` sends through its hooks is an opaque `Mixed` value: it has no
  constructor of its own, and only `callParent` gives it meaning.
