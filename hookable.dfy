/**
 * A hookable Eloquent model: a per-class table of hooks keyed by the name
 * of the intercepted method, and the intercepted methods themselves, each of
 * which looks up its hooks, binds them to the instance, builds its argument
 * bag and sends its payload through the pipeline to a destination.
 *
 * The parent (Eloquent) behaviour each method falls back on is not part of
 * this model: it is a parameter of the method, a function of the instance
 * and the call's arguments.
 */
module Hookable {
  import opened Wrappers
  import Arguments
  import Pipeline

  /** A dynamically typed value, as payloads and bag entries are. */
  datatype Mixed<H> =
    | Null
    | Bool(b: bool)
    | Int(i: int)
    | Str(s: string)
    | Arr(items: seq<(Mixed<H>, Mixed<H>)>)
    | ArgBag(bag: Arguments.Bag<Mixed<H>>)
    | Model(instance: H)

  type Params<H> = Arguments.Bag<Mixed<H>>

  /** A hook bound to an instance: what the pipeline runs. */
  type Bound<!H> = Pipeline.Stage<Mixed<H>, Params<H>>

  /** A registered hook closure; binding it to an instance (its `$this`) gives its behaviour. */
  type Closure<!H> = H -> Bound<H>

  type Destination<!H> = (Mixed<H>, Params<H>) -> Mixed<H>

  /**
   * What an intercepted call did: the value it returns, and the payload its
   * destination was called with (None when a hook returned without calling
   * `next`, so the parent behaviour behind the destination never ran).
   */
  datatype Effect<H> = Effect(result: Mixed<H>, reached: Option<Mixed<H>>)

  /** `array_reverse`. */
  function Reverse<T>(s: seq<T>): (r: seq<T>)
    ensures |r| == |s|
    ensures forall i :: 0 <= i < |s| ==> r[i] == s[|s| - 1 - i]
  {
    seq(|s|, i requires 0 <= i < |s| => s[|s| - 1 - i])
  }

  /**
   * `pipe`: the payload sent through `hooks` to `destination`, with a new
   * argument bag built from `params`.
   */
  function Pipe<H>(hooks: seq<Bound<H>>, payload: Mixed<H>, params: seq<(string, Mixed<H>)>,
                   destination: Destination<H>): (r: Effect<H>)
    ensures hooks == [] ==> r == Effect(destination(payload, Arguments.Of(params)), Some(payload))
  {
    var args := Arguments.Of(params);
    Effect(Pipeline.Pipe(hooks, payload, args, destination), Pipeline.Delivered(hooks, payload, args))
  }

  /** The identity destination of the methods whose payload is already the answer. */
  function Identity<H>(): Destination<H> {
    (payload: Mixed<H>, args: Params<H>) => payload
  }

  /** The destination of `setAttribute`: the parent's setter, whose answer is nothing. */
  function Discard<H>(): Destination<H> {
    (payload: Mixed<H>, args: Params<H>) => Null
  }

  /** The destination of `save`: the parent has already saved, so the answer is `true`. */
  function AnswerTrue<H>(): Destination<H> {
    (payload: Mixed<H>, args: Params<H>) => Bool(true)
  }

  /** The destination of `queryHook`: the builder's own method, called on the payload. */
  function CallParent<H>(methodName: string, args: Params<H>,
                         callParent: (Mixed<H>, string, seq<(string, Mixed<H>)>) -> Mixed<H>): Destination<H> {
    (q: Mixed<H>, a: Params<H>) => callParent(q, methodName, Arguments.All(args))
  }

  /** The destination of `isDirty`: the parent's check of the attributes the hooks pass on. */
  function ParentIsDirty<H>(self: H, parentIsDirty: (H, Mixed<H>) -> Mixed<H>): Destination<H> {
    (p: Mixed<H>, a: Params<H>) => parentIsDirty(self, p)
  }

  /** The destination of `__unset`: the parent's unset of `key`; the payload is not used. */
  function ParentUnset<H>(self: H, key: string, parentUnset: (H, string) -> Mixed<H>): Destination<H> {
    (p: Mixed<H>, a: Params<H>) => parentUnset(self, key)
  }

  /** The bag `queryHook` builds: the builder method called and its arguments. */
  function QueryParams<H>(methodName: string, args: Params<H>): seq<(string, Mixed<H>)> {
    [("method", Str(methodName)), ("args", ArgBag(args))]
  }

  /** The bag `replicate` builds: its own argument and the instance being copied. */
  function ReplicateParams<H>(self: H, except: Mixed<H>): seq<(string, Mixed<H>)> {
    [("except", except), ("original", Model(self))]
  }

  /** The hook table of one hookable class, and the methods it intercepts. */
  class HookRegistry<H> {
    var hooks: map<string, seq<Closure<H>>>

    constructor ()
      ensures hooks == map[]
    {
      hooks := map[];
    }

    /** The hooks registered for `name`, in registration order; none if absent. */
    function Registered(name: string): (r: seq<Closure<H>>)
      reads this
      ensures name in hooks ==> r == hooks[name]
      ensures name !in hooks ==> r == []
    {
      if name in hooks then hooks[name] else []
    }

    /** `hook`: append `hook` to the list for `name`, creating it if absent. */
    method Hook(name: string, hook: Closure<H>)
      modifies this
      ensures hooks == old(hooks)[name := old(Registered(name)) + [hook]]
      ensures Registered(name) == old(Registered(name)) + [hook]
      ensures forall other :: other != name ==> Registered(other) == old(Registered(other))
    {
      hooks := hooks[name := Registered(name) + [hook]];
    }

    /** `flushHooks`: forget every hook of the class. */
    method FlushHooks()
      modifies this
      ensures hooks == map[]
      ensures forall name :: Registered(name) == []
    {
      hooks := map[];
    }

    /** `boundHooks`: the hooks for `name`, each bound to `self`, in registration order. */
    function BoundHooks(name: string, self: H): (r: seq<Bound<H>>)
      reads this
      ensures |r| == |Registered(name)|
      ensures forall i :: 0 <= i < |r| ==> r[i] == Registered(name)[i](self)
      ensures name !in hooks ==> r == []
    {
      var registered := Registered(name);
      seq(|registered|, i requires 0 <= i < |registered| => registered[i](self))
    }

    /** `queryHook`: a builder call routed through the hooks before reaching `callParent`. */
    function QueryHook(self: H, query: Mixed<H>, methodName: string, args: Params<H>,
                       callParent: (Mixed<H>, string, seq<(string, Mixed<H>)>) -> Mixed<H>): (r: Effect<H>)
      reads this
      ensures Registered("queryHook") == [] ==>
                r == Effect(callParent(query, methodName, Arguments.All(args)), Some(query))
    {
      Pipe(BoundHooks("queryHook", self), query, QueryParams(methodName, args),
           CallParent(methodName, args, callParent))
    }

    /** `getAttribute`: the parent's value of `key`, through the hooks. */
    function GetAttribute(self: H, key: string, parentGet: (H, string) -> Mixed<H>): (r: Mixed<H>)
      reads this
      ensures Registered("getAttribute") == [] ==> r == parentGet(self, key)
    {
      Pipe(BoundHooks("getAttribute", self), parentGet(self, key), [("key", Str(key))], Identity()).result
    }

    /**
     * `setAttribute`: `value`, through the hooks in reverse registration
     * order, reaches the parent's setter; the destination returns nothing.
     */
    function SetAttribute(self: H, key: string, value: Mixed<H>): (r: Effect<H>)
      reads this
      ensures Registered("setAttribute") == [] ==> r == Effect(Null, Some(value))
    {
      Pipe(Reverse(BoundHooks("setAttribute", self)), value, [("key", Str(key))], Discard())
    }

    /**
     * `save`: false straight away when the parent's save fails; otherwise
     * `true` through the hooks to a destination that answers `true`.
     */
    function Save(self: H, options: Mixed<H>, parentSave: (H, Mixed<H>) -> bool): (r: Mixed<H>)
      reads this
      ensures !parentSave(self, options) ==> r == Bool(false)
      ensures parentSave(self, options) && Registered("save") == [] ==> r == Bool(true)
    {
      if !parentSave(self, options) then Bool(false)
      else
        Pipe(BoundHooks("save", self), Bool(true), [("options", options)], AnswerTrue()).result
    }

    /** `isDirty`: the attributes, through the hooks, to the parent's dirtiness check. */
    function IsDirty(self: H, attributes: Mixed<H>, parentIsDirty: (H, Mixed<H>) -> Mixed<H>): (r: Mixed<H>)
      reads this
      ensures Registered("isDirty") == [] ==> r == parentIsDirty(self, attributes)
    {
      Pipe(BoundHooks("isDirty", self), attributes, [("attributes", attributes)],
           ParentIsDirty(self, parentIsDirty)).result
    }

    /** `toArray`: the parent's array form, through the hooks, with an empty bag. */
    function ToArray(self: H, parentToArray: H -> Mixed<H>): (r: Mixed<H>)
      reads this
      ensures Registered("toArray") == [] ==> r == parentToArray(self)
    {
      Pipe(BoundHooks("toArray", self), parentToArray(self), [], Identity()).result
    }

    /** `replicate`: the parent's copy, through the hooks, which also see the original. */
    function Replicate(self: H, except: Mixed<H>, parentReplicate: (H, Mixed<H>) -> Mixed<H>): (r: Mixed<H>)
      reads this
      ensures Registered("replicate") == [] ==> r == parentReplicate(self, except)
    {
      Pipe(BoundHooks("replicate", self), parentReplicate(self, except),
           ReplicateParams(self, except), Identity()).result
    }

    /** `__isset`: the parent's answer for `key`, through the hooks. */
    function IsSet(self: H, key: string, parentIsSet: (H, string) -> Mixed<H>): (r: Mixed<H>)
      reads this
      ensures Registered("__isset") == [] ==> r == parentIsSet(self, key)
    {
      Pipe(BoundHooks("__isset", self), parentIsSet(self, key), [("key", Str(key))], Identity()).result
    }

    /** `__unset`: `false` through the hooks to the parent's unset of `key`. */
    function Unset(self: H, key: string, parentUnset: (H, string) -> Mixed<H>): (r: Effect<H>)
      reads this
      ensures Registered("__unset") == [] ==> r == Effect(parentUnset(self, key), Some(Bool(false)))
    {
      Pipe(BoundHooks("__unset", self), Bool(false), [("key", Str(key))],
           ParentUnset(self, key, parentUnset))
    }

    /** Bound hooks registered as steps are those steps, in the same order. */
    lemma BoundSteps(name: string, self: H, fs: seq<Mixed<H> -> Mixed<H>>)
      requires Registered(name) == StepClosures(fs)
      ensures BoundHooks(name, self) == Pipeline.Steps(fs)
    {
    }

    /**
     * `getAttribute` runs its hooks in registration order: with hooks that
     * each transform the value and call `next`, the first registered one
     * applies first.
     */
    lemma GetAttributeRunsHooksInOrder(self: H, key: string, parentGet: (H, string) -> Mixed<H>,
                                       fs: seq<Mixed<H> -> Mixed<H>>)
      requires BoundHooks("getAttribute", self) == Pipeline.Steps(fs)
      ensures GetAttribute(self, key, parentGet) == Pipeline.ApplyInOrder(fs, parentGet(self, key))
    {
      Pipeline.StepsRunInOrder(fs, parentGet(self, key), Arguments.Of([("key", Str(key))]), Identity());
    }

    /**
     * On the way back out of `getAttribute`, hooks that pass the value on
     * and post-process what `next` returns apply in reverse registration
     * order: the first registered hook has the last word.
     */
    lemma GetAttributePostProcessesOutward(self: H, key: string, parentGet: (H, string) -> Mixed<H>,
                                           gs: seq<Mixed<H> -> Mixed<H>>)
      requires BoundHooks("getAttribute", self) == Pipeline.PostSteps(gs)
      ensures GetAttribute(self, key, parentGet) == Pipeline.ApplyOutward(gs, parentGet(self, key))
    {
      Pipeline.PostStepsWrapOutward(gs, parentGet(self, key), Arguments.Of([("key", Str(key))]), Identity());
    }

    /**
     * `setAttribute` runs its hooks in reverse registration order: with
     * hooks that each transform the value and call `next`, the parent's
     * setter receives the value with the last registered one applied first.
     */
    lemma SetAttributeRunsHooksInReverse(self: H, key: string, value: Mixed<H>,
                                         fs: seq<Mixed<H> -> Mixed<H>>)
      requires BoundHooks("setAttribute", self) == Pipeline.Steps(fs)
      ensures SetAttribute(self, key, value).reached == Some(Pipeline.ApplyInOrder(Reverse(fs), value))
      ensures SetAttribute(self, key, value).result == Null
    {
      ReverseSteps(fs);
      Pipeline.StepsRunInOrder(Reverse(fs), value, Arguments.Of([("key", Str(key))]), Discard());
    }

    /**
     * A `setAttribute` hook that answers without calling `next` keeps the
     * value away from the parent's setter, and the hooks registered after it
     * (which run before it) see its answer come back as that of `next`.
     */
    lemma SetAttributeHaltSkipsParent(self: H, key: string, value: Mixed<H>, k: nat,
                                      answer: (Mixed<H>, Params<H>) -> Mixed<H>)
      requires k < |Registered("setAttribute")|
      requires Registered("setAttribute")[k](self) == Pipeline.Halt(answer)
      ensures SetAttribute(self, key, value).reached == None
      ensures SetAttribute(self, key, value).result
           == Pipeline.Pipe(Reverse(BoundHooks("setAttribute", self)[k + 1..]), value,
                            Arguments.Of([("key", Str(key))]), answer)
    {
      var bound := BoundHooks("setAttribute", self);
      var reversed := Reverse(bound);
      var j := |bound| - 1 - k;
      SplitAt(reversed, j);
      assert reversed[j] == Pipeline.Halt(answer);
      assert reversed[..j] == Reverse(bound[k + 1..]);
      Pipeline.HaltCutsChain(reversed[..j], answer, reversed[j + 1..], value,
                             Arguments.Of([("key", Str(key))]), Discard());
    }

    /**
     * `queryHook` runs its hooks in registration order: with hooks that each
     * transform the query and call `next`, the builder's method is called on
     * the transformed query, with the call's original arguments.
     */
    lemma QueryHookRunsHooksInOrder(self: H, query: Mixed<H>, methodName: string, args: Params<H>,
                                    callParent: (Mixed<H>, string, seq<(string, Mixed<H>)>) -> Mixed<H>,
                                    fs: seq<Mixed<H> -> Mixed<H>>)
      requires BoundHooks("queryHook", self) == Pipeline.Steps(fs)
      ensures QueryHook(self, query, methodName, args, callParent)
           == Effect(callParent(Pipeline.ApplyInOrder(fs, query), methodName, Arguments.All(args)),
                     Some(Pipeline.ApplyInOrder(fs, query)))
    {
      PipeSteps(fs, query, QueryParams(methodName, args), CallParent(methodName, args, callParent));
    }

    /**
     * `isDirty` runs its hooks in registration order, and the parent checks
     * the attributes as the last hook passed them on.
     */
    lemma IsDirtyRunsHooksInOrder(self: H, attributes: Mixed<H>, parentIsDirty: (H, Mixed<H>) -> Mixed<H>,
                                  fs: seq<Mixed<H> -> Mixed<H>>)
      requires BoundHooks("isDirty", self) == Pipeline.Steps(fs)
      ensures IsDirty(self, attributes, parentIsDirty)
           == parentIsDirty(self, Pipeline.ApplyInOrder(fs, attributes))
    {
      PipeSteps(fs, attributes, [("attributes", attributes)], ParentIsDirty(self, parentIsDirty));
    }

    /** `toArray` runs its hooks in registration order on the parent's array. */
    lemma ToArrayRunsHooksInOrder(self: H, parentToArray: H -> Mixed<H>, fs: seq<Mixed<H> -> Mixed<H>>)
      requires BoundHooks("toArray", self) == Pipeline.Steps(fs)
      ensures ToArray(self, parentToArray) == Pipeline.ApplyInOrder(fs, parentToArray(self))
    {
      PipeSteps(fs, parentToArray(self), [], Identity());
    }

    /** `replicate` runs its hooks in registration order on the parent's copy. */
    lemma ReplicateRunsHooksInOrder(self: H, except: Mixed<H>, parentReplicate: (H, Mixed<H>) -> Mixed<H>,
                                    fs: seq<Mixed<H> -> Mixed<H>>)
      requires BoundHooks("replicate", self) == Pipeline.Steps(fs)
      ensures Replicate(self, except, parentReplicate) == Pipeline.ApplyInOrder(fs, parentReplicate(self, except))
    {
      PipeSteps(fs, parentReplicate(self, except), ReplicateParams(self, except), Identity());
    }

    /**
     * The hooks of `replicate` find the instance being copied under
     * "original" and the call's argument under "except": a first hook that
     * answers with either entry of its bag answers with that value.
     */
    lemma ReplicateHooksSeeOriginal(self: H, except: Mixed<H>, parentReplicate: (H, Mixed<H>) -> Mixed<H>)
      requires Registered("replicate") != []
      ensures Registered("replicate")[0](self) == ReadArg("original") ==>
                Replicate(self, except, parentReplicate) == Model(self)
      ensures Registered("replicate")[0](self) == ReadArg("except") ==>
                Replicate(self, except, parentReplicate) == except
    {
      ReplicateBag(self, except);
    }

    /**
     * The hooks of `queryHook` learn from their bag which builder method was
     * called ("method") and with which arguments ("args").
     */
    lemma QueryHookHooksSeeMethod(self: H, query: Mixed<H>, methodName: string, args: Params<H>,
                                  callParent: (Mixed<H>, string, seq<(string, Mixed<H>)>) -> Mixed<H>)
      requires Registered("queryHook") != []
      ensures Registered("queryHook")[0](self) == ReadArg("method") ==>
                QueryHook(self, query, methodName, args, callParent) == Effect(Str(methodName), None)
      ensures Registered("queryHook")[0](self) == ReadArg("args") ==>
                QueryHook(self, query, methodName, args, callParent) == Effect(ArgBag(args), None)
    {
      assert "method" != "args" by { assert |"method"| != |"args"|; }
      Arguments.TwoEntries("method", Mixed<H>.Str(methodName), "args", Mixed<H>.ArgBag(args));
      var bound := BoundHooks("queryHook", self);
      var params := QueryParams(methodName, args);
      var destination := CallParent(methodName, args, callParent);
      if bound[0] == ReadArg("method") {
        FirstReadsArg(bound, query, params, destination, "method");
      }
      if bound[0] == ReadArg("args") {
        FirstReadsArg(bound, query, params, destination, "args");
      }
    }

    /** The hooks of `isDirty` find the attributes the call was given under "attributes". */
    lemma IsDirtyHooksSeeAttributes(self: H, attributes: Mixed<H>, parentIsDirty: (H, Mixed<H>) -> Mixed<H>)
      requires Registered("isDirty") != []
      ensures Registered("isDirty")[0](self) == ReadArg("attributes") ==>
                IsDirty(self, attributes, parentIsDirty) == attributes
    {
      Arguments.SingleEntry("attributes", attributes);
    }

    /** The hooks of `save` find the save options under "options". */
    lemma SaveHooksSeeOptions(self: H, options: Mixed<H>, parentSave: (H, Mixed<H>) -> bool)
      requires parentSave(self, options)
      requires Registered("save") != []
      ensures Registered("save")[0](self) == ReadArg("options") ==> Save(self, options, parentSave) == options
    {
      Arguments.SingleEntry("options", options);
    }

    /**
     * After a successful parent save, hooks that transform the payload and
     * call `next` do not change the answer: the destination answers `true`
     * whatever it is passed.
     */
    lemma SaveStepsAnswerTrue(self: H, options: Mixed<H>, parentSave: (H, Mixed<H>) -> bool,
                              fs: seq<Mixed<H> -> Mixed<H>>)
      requires parentSave(self, options)
      requires BoundHooks("save", self) == Pipeline.Steps(fs)
      ensures Save(self, options, parentSave) == Bool(true)
    {
      PipeSteps(fs, Bool(true), [("options", options)], AnswerTrue());
    }

    /** The hooks of `__isset` find the key asked about under "key". */
    lemma IsSetHooksSeeKey(self: H, key: string, parentIsSet: (H, string) -> Mixed<H>)
      requires Registered("__isset") != []
      ensures Registered("__isset")[0](self) == ReadArg("key") ==> IsSet(self, key, parentIsSet) == Str(key)
    {
      KeyParam<H>(key);
    }

    /** `__isset` runs its hooks in registration order on the parent's answer. */
    lemma IsSetRunsHooksInOrder(self: H, key: string, parentIsSet: (H, string) -> Mixed<H>,
                                fs: seq<Mixed<H> -> Mixed<H>>)
      requires BoundHooks("__isset", self) == Pipeline.Steps(fs)
      ensures IsSet(self, key, parentIsSet) == Pipeline.ApplyInOrder(fs, parentIsSet(self, key))
    {
      PipeSteps(fs, parentIsSet(self, key), [("key", Str(key))], Identity());
    }

    /**
     * With hooks that each transform the payload and call `next`, `__unset`
     * reaches the parent's unset and returns its answer.
     */
    lemma UnsetRunsHooksInOrder(self: H, key: string, parentUnset: (H, string) -> Mixed<H>,
                                fs: seq<Mixed<H> -> Mixed<H>>)
      requires BoundHooks("__unset", self) == Pipeline.Steps(fs)
      ensures Unset(self, key, parentUnset)
           == Effect(parentUnset(self, key), Some(Pipeline.ApplyInOrder(fs, Bool(false))))
    {
      PipeSteps(fs, Bool(false), [("key", Str(key))], ParentUnset(self, key, parentUnset));
    }

    /**
     * An `__unset` hook that answers without calling `next` keeps the
     * parent's unset from running; its answer passes back through the hooks
     * registered before it.
     */
    lemma UnsetHaltSkipsParent(self: H, key: string, parentUnset: (H, string) -> Mixed<H>, k: nat,
                               answer: (Mixed<H>, Params<H>) -> Mixed<H>)
      requires k < |Registered("__unset")|
      requires Registered("__unset")[k](self) == Pipeline.Halt(answer)
      ensures Unset(self, key, parentUnset).reached == None
      ensures Unset(self, key, parentUnset).result
           == Pipeline.Pipe(BoundHooks("__unset", self)[..k], Bool(false), Arguments.Of([("key", Str(key))]), answer)
    {
      var bound := BoundHooks("__unset", self);
      SplitAt(bound, k);
      Pipeline.HaltCutsChain(bound[..k], answer, bound[k + 1..], Bool(false),
                             Arguments.Of([("key", Str(key))]), ParentUnset(self, key, parentUnset));
    }
  }

  /**
   * Hooks that each transform the payload and call `next`: the destination
   * receives the payload with every transformation applied in order.
   */
  lemma PipeSteps<H>(fs: seq<Mixed<H> -> Mixed<H>>, payload: Mixed<H>, params: seq<(string, Mixed<H>)>,
                     destination: Destination<H>)
    ensures Pipe(Pipeline.Steps(fs), payload, params, destination)
         == Effect(destination(Pipeline.ApplyInOrder(fs, payload), Arguments.Of(params)),
                   Some(Pipeline.ApplyInOrder(fs, payload)))
  {
    Pipeline.StepsRunInOrder(fs, payload, Arguments.Of(params), destination);
  }

  /** A hook that answers with the entry `name` of its bag, without calling `next`. */
  function ReadArg<H>(name: string): Bound<H> {
    Pipeline.Halt((p: Mixed<H>, a: Params<H>) => Arguments.GetOr(a, name, Null))
  }

  /** A first hook that reads its bag ends the call with that entry, and nothing reaches the destination. */
  lemma FirstReadsArg<H>(hooks: seq<Bound<H>>, payload: Mixed<H>, params: seq<(string, Mixed<H>)>,
                         destination: Destination<H>, name: string)
    requires hooks != [] && hooks[0] == ReadArg(name)
    ensures Pipe(hooks, payload, params, destination)
         == Effect(Arguments.GetOr(Arguments.Of(params), name, Null), None)
  {
  }

  /** The bag of `replicate` holds the copied instance under "original" and `except` under "except". */
  lemma ReplicateBag<H>(self: H, except: Mixed<H>)
    ensures Arguments.GetOr(Arguments.Of(ReplicateParams(self, except)), "original", Null) == Model(self)
    ensures Arguments.GetOr(Arguments.Of(ReplicateParams(self, except)), "except", Null) == except
  {
    assert "except" != "original" by { assert |"except"| != |"original"|; }
    Arguments.TwoEntries("except", except, "original", Mixed<H>.Model(self));
  }

  /** Cuts `s` around position `j`. */
  lemma SplitAt<T>(s: seq<T>, j: nat)
    requires j < |s|
    ensures s == s[..j] + [s[j]] + s[j + 1..]
  {
  }

  /** One hook closure per step of `fs`, each ignoring its instance and behaving as that step. */
  function StepClosures<H>(fs: seq<Mixed<H> -> Mixed<H>>): (r: seq<Closure<H>>)
    ensures |r| == |fs|
  {
    seq(|fs|, i requires 0 <= i < |fs| => (self: H) => Pipeline.Step(fs[i]))
  }

  /** Reversing a list of steps reverses the transformations they apply. */
  lemma ReverseSteps<H>(fs: seq<Mixed<H> -> Mixed<H>>)
    ensures Reverse(Pipeline.Steps<Mixed<H>, Params<H>>(fs)) == Pipeline.Steps(Reverse(fs))
  {
  }

  /** A step appending `suffix` to a string value and leaving other values alone. */
  function Suffix<H>(suffix: string): Mixed<H> -> Mixed<H> {
    (p: Mixed<H>) => if p.Str? then Str(p.s + suffix) else p
  }

  /**
   * Two hooks on different methods make a table of two entries; flushing
   * empties it, and afterwards `getAttribute` answers as the parent does.
   */
  method FlushScenario() returns (sizeBefore: nat, sizeAfter: nat, value: Mixed<nat>)
    ensures sizeBefore == 2 && sizeAfter == 0
    ensures value == Str("value")
  {
    var registry := new HookRegistry<nat>();
    var silent := (self: nat) => Pipeline.Halt((p: Mixed<nat>, a: Params<nat>) => Null);
    registry.Hook("method1", silent);
    registry.Hook("method2", silent);
    sizeBefore := |registry.hooks|;
    registry.FlushHooks();
    sizeAfter := |registry.hooks|;
    value := registry.GetAttribute(7, "attribute", (h: nat, k: string) => Str("value"));
  }

  /** A hook resolves in the scope of the instance it is called on. */
  method InstanceScopeScenario() returns (first: Mixed<nat>, second: Mixed<nat>)
    ensures first == Model(7) && second == Model(8)
  {
    var registry := new HookRegistry<nat>();
    registry.Hook("getAttribute", (self: nat) => Pipeline.Halt((p: Mixed<nat>, a: Params<nat>) => Model(self)));
    var parentGet := (h: nat, k: string) => Str("value");
    first := registry.GetAttribute(7, "attribute", parentGet);
    second := registry.GetAttribute(8, "attribute", parentGet);
  }

  /** The suffix steps ",A" then ",B", applied forwards and backwards to "value". */
  lemma SuffixesApply()
    ensures Pipeline.ApplyInOrder([Suffix<nat>(",A"), Suffix<nat>(",B")], Str("value")) == Str("value,A,B")
    ensures Pipeline.ApplyInOrder(Reverse([Suffix<nat>(",A"), Suffix<nat>(",B")]), Str("value")) == Str("value,B,A")
  {
    var fs := [Suffix<nat>(",A"), Suffix<nat>(",B")];
    assert Reverse(fs) == [fs[1], fs[0]];
    assert Pipeline.ApplyInOrder(fs, Str("value")) == Pipeline.ApplyInOrder([fs[1]], Str("value,A"));
    assert Pipeline.ApplyInOrder([fs[0]], Str("value,B")) == Str("value,B,A");
  }

  /** The bag `getAttribute` builds holds its key under "key". */
  lemma KeyParam<H>(key: string)
    ensures Arguments.GetOr(Arguments.Of([("key", Mixed<H>.Str(key))]), "key", Null) == Str(key)
  {
    Arguments.SingleEntry("key", Mixed<H>.Str(key));
  }

  /**
   * A `getAttribute` hook that reads the bag: it answers "hidden" without
   * calling `next` for the key "secret", and passes every other key on.
   */
  function SecretGuard(): Closure<nat> {
    (self: nat) => Pipeline.Stage(
      (p: Mixed<nat>, a: Params<nat>) =>
        if Arguments.GetOr(a, "key", Null) == Str("secret") then Pipeline.Return(Str("hidden")) else Pipeline.Next(p),
      Pipeline.PassBack())
  }

  /** What the guard makes of the parent's value for `key`. */
  lemma SecretGuardAnswers(self: nat, key: string, value: Mixed<nat>)
    ensures Pipeline.Pipe([SecretGuard()(self)], value, Arguments.Of([("key", Mixed<nat>.Str(key))]), Identity())
         == if key == "secret" then Str("hidden") else value
  {
    var args := Arguments.Of([("key", Mixed<nat>.Str(key))]);
    KeyParam<nat>(key);
    assert [SecretGuard()(self)][1..] == [];
    if key != "secret" {
      assert SecretGuard()(self).route(value, args) == Pipeline.Next(value);
      assert Pipeline.Pipe([], value, args, Identity()) == value;
    }
  }

  /** The guard registered on `getAttribute` hides "secret" and lets "name" through. */
  method KeyedHookScenario() returns (secret: Mixed<nat>, name: Mixed<nat>)
    ensures secret == Str("hidden") && name == Str("value")
  {
    var registry := new HookRegistry<nat>();
    registry.Hook("getAttribute", SecretGuard());
    assert registry.BoundHooks("getAttribute", 7) == [SecretGuard()(7)];
    var parentGet := (h: nat, k: string) => Str("value");
    secret := registry.GetAttribute(7, "secret", parentGet);
    SecretGuardAnswers(7, "secret", Str("value"));
    name := registry.GetAttribute(7, "name", parentGet);
    SecretGuardAnswers(7, "name", Str("value"));
    assert "name" != "secret" by { assert |"name"| != |"secret"|; }
  }

  /**
   * Hooks A then B, registered on both `getAttribute` and `setAttribute`:
   * the getter applies A then B, the setter B then A.
   */
  method OrderScenario() returns (got: Mixed<nat>, written: Option<Mixed<nat>>)
    ensures got == Str("value,A,B")
    ensures written == Some(Str("value,B,A"))
  {
    var registry := new HookRegistry<nat>();
    var fs := [Suffix<nat>(",A"), Suffix<nat>(",B")];
    var closures := StepClosures(fs);
    registry.Hook("getAttribute", closures[0]);
    registry.Hook("getAttribute", closures[1]);
    registry.Hook("setAttribute", closures[0]);
    assert registry.Registered("getAttribute") == closures;
    registry.Hook("setAttribute", closures[1]);
    assert registry.Registered("setAttribute") == closures;
    var parentGet := (h: nat, k: string) => Str("value");
    got := registry.GetAttribute(7, "name", parentGet);
    registry.BoundSteps("getAttribute", 7, fs);
    registry.GetAttributeRunsHooksInOrder(7, "name", parentGet, fs);
    var effect := registry.SetAttribute(7, "name", Str("value"));
    registry.BoundSteps("setAttribute", 7, fs);
    registry.SetAttributeRunsHooksInReverse(7, "name", Str("value"), fs);
    SuffixesApply();
    written := effect.reached;
  }

  /**
   * With no hooks a successful save answers true; once a hook answers
   * "hooked", a failing parent save still returns false, and a successful
   * one returns the hook's answer.
   */
  method SaveScenario() returns (saved: Mixed<nat>, failed: Mixed<nat>, hooked: Mixed<nat>)
    ensures saved == Bool(true)
    ensures failed == Bool(false) && hooked == Str("hooked")
  {
    var registry := new HookRegistry<nat>();
    var options := Arr([]);
    saved := registry.Save(7, options, (h: nat, o: Mixed<nat>) => true);
    registry.Hook("save", (self: nat) => Pipeline.Halt((p: Mixed<nat>, a: Params<nat>) => Str("hooked")));
    failed := registry.Save(7, options, (h: nat, o: Mixed<nat>) => false);
    hooked := registry.Save(7, options, (h: nat, o: Mixed<nat>) => true);
  }
}
