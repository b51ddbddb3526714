/**
 * The pipeline a hookable method sends its payload through: a list of
 * hooks wrapped around a destination, the first hook outermost.  Each hook
 * gets the continuation `next` (the rest of the chain), the payload and the
 * argument bag; the same bag is handed to every hook and to the destination.
 *
 * A hook decides, from the payload and the bag, either to call `next` once
 * with a payload of its choosing and then build its answer from what comes
 * back, or to return an answer without calling `next`, which cuts the rest
 * of the chain and the destination out.
 */
module Pipeline {
  import opened Wrappers
  import Arguments

  /** What a hook does with the payload it is given. */
  datatype Decision<P> = Next(payload: P) | Return(result: P)

  datatype Stage<!P, !A> = Stage(route: (P, A) -> Decision<P>, after: (P, P, A) -> P)

  /** A hook that always calls `next` with `before`'s payload and answers with `after`. */
  function Around<P, A>(before: (P, A) -> P, after: (P, P, A) -> P): Stage<P, A> {
    Stage((p: P, a: A) => Next(before(p, a)), after)
  }

  /** A hook that never calls `next` and answers with `answer`. */
  function Halt<P, A>(answer: (P, A) -> P): Stage<P, A> {
    Stage((p: P, a: A) => Return(answer(p, a)), (p: P, r: P, a: A) => r)
  }

  /** Runs one hook with `next` as its continuation. */
  function Invoke<P, A>(stage: Stage<P, A>, next: P -> P, payload: P, args: A): P {
    match stage.route(payload, args)
    case Next(q) => stage.after(payload, next(q), args)
    case Return(v) => v
  }

  /**
   * `send(payload)->with(args)->to(destination)` through `stages`: a right
   * fold, the destination innermost.  With no hooks the destination answers;
   * when the outermost hook returns without calling `next`, its answer is the
   * result whatever the other hooks and the destination are.
   */
  function Pipe<P, A>(stages: seq<Stage<P, A>>, payload: P, args: A, destination: (P, A) -> P): (r: P)
    ensures stages == [] ==> r == destination(payload, args)
    ensures stages != [] && stages[0].route(payload, args).Return? ==> r == stages[0].route(payload, args).result
    decreases |stages|
  {
    if stages == [] then destination(payload, args)
    else Invoke(stages[0], (p: P) => Pipe(stages[1..], p, args, destination), payload, args)
  }

  /**
   * The payload the destination is called with, or None when some hook
   * returns without calling `next`: with no hooks the payload itself, and
   * nothing when the outermost hook returns.
   */
  function Delivered<P, A>(stages: seq<Stage<P, A>>, payload: P, args: A): (r: Option<P>)
    ensures stages == [] ==> r == Some(payload)
    ensures r.None? ==> stages != []
    ensures stages != [] && stages[0].route(payload, args).Return? ==> r == None
    decreases |stages|
  {
    if stages == [] then Some(payload)
    else
      match stages[0].route(payload, args)
      case Next(q) => Delivered(stages[1..], q, args)
      case Return(_) => None
  }

  /** With no hooks the destination gets the payload and its answer is the result. */
  lemma PipeWithoutHooks<P, A>(payload: P, args: A, destination: (P, A) -> P)
    ensures Pipe([], payload, args, destination) == destination(payload, args)
    ensures Delivered<P, A>([], payload, args) == Some(payload)
  {
  }

  /**
   * The destination is called at most once, with the delivered payload:
   * two destinations that agree there give the same result, and when a hook
   * short-circuits the destination does not matter at all.
   */
  lemma {:induction false} DestinationOnlyAtDelivered<P, A>(
    stages: seq<Stage<P, A>>, payload: P, args: A, d1: (P, A) -> P, d2: (P, A) -> P)
    requires match Delivered(stages, payload, args)
             case None => true
             case Some(q) => d1(q, args) == d2(q, args)
    ensures Pipe(stages, payload, args, d1) == Pipe(stages, payload, args, d2)
    decreases |stages|
  {
    if stages != [] {
      match stages[0].route(payload, args)
      case Next(q) =>
        DestinationOnlyAtDelivered(stages[1..], q, args, d1, d2);
      case Return(_) =>
    }
  }

  /**
   * The first hooks wrap the later ones: running `s1 + s2` is running `s1`
   * with "run `s2`, then the destination" as its destination.
   */
  lemma {:induction false} PipeConcat<P, A>(
    s1: seq<Stage<P, A>>, s2: seq<Stage<P, A>>, payload: P, args: A, destination: (P, A) -> P)
    ensures Pipe(s1 + s2, payload, args, destination)
         == Pipe(s1, payload, args, (q: P, b: A) => Pipe(s2, q, b, destination))
    decreases |s1|
  {
    if s1 == [] {
      assert s1 + s2 == s2;
    } else {
      assert (s1 + s2)[0] == s1[0];
      assert (s1 + s2)[1..] == s1[1..] + s2;
      match s1[0].route(payload, args)
      case Next(q) =>
        PipeConcat(s1[1..], s2, q, args, destination);
      case Return(_) =>
    }
  }

  /**
   * The destination of `s1 + s2` receives what the destination of `s2`
   * would receive from the payload `s1` delivers.
   */
  lemma {:induction false} DeliveredConcat<P, A>(s1: seq<Stage<P, A>>, s2: seq<Stage<P, A>>, payload: P, args: A)
    ensures Delivered(s1 + s2, payload, args)
         == match Delivered(s1, payload, args)
            case None => None
            case Some(q) => Delivered(s2, q, args)
    decreases |s1|
  {
    if s1 == [] {
      assert s1 + s2 == s2;
    } else {
      assert (s1 + s2)[0] == s1[0];
      assert (s1 + s2)[1..] == s1[1..] + s2;
      match s1[0].route(payload, args)
      case Next(q) =>
        DeliveredConcat(s1[1..], s2, q, args);
      case Return(_) =>
    }
  }

  /**
   * A hook that returns without calling `next` ends the chain: the hooks
   * after it and the destination never run, and its answer is what the
   * hooks before it see coming back.
   */
  lemma HaltCutsChain<P, A>(
    s1: seq<Stage<P, A>>, answer: (P, A) -> P, s2: seq<Stage<P, A>>,
    payload: P, args: A, destination: (P, A) -> P)
    ensures Pipe(s1 + [Halt(answer)] + s2, payload, args, destination)
         == Pipe(s1, payload, args, answer)
    ensures Delivered(s1 + [Halt(answer)] + s2, payload, args) == None
  {
    var rest := [Halt(answer)] + s2;
    assert s1 + [Halt(answer)] + s2 == s1 + rest;
    assert (s1 + rest)[|s1|] == Halt(answer);
    PipeConcat(s1, rest, payload, args, destination);
    DeliveredConcat(s1, rest, payload, args);
    var inner := (q: P, b: A) => Pipe(rest, q, b, destination);
    assert forall q :: inner(q, args) == answer(q, args);
    DestinationOnlyAtDelivered(s1, payload, args, inner, answer);
  }

  /** A hook that applies `f` to the payload, calls `next` and returns its answer. */
  function Step<P, A>(f: P -> P): Stage<P, A> {
    Around((p: P, a: A) => f(p), PassBack())
  }

  function Steps<P, A>(fs: seq<P -> P>): (r: seq<Stage<P, A>>)
    ensures |r| == |fs|
    ensures forall i :: 0 <= i < |fs| ==> r[i] == Step(fs[i])
  {
    seq(|fs|, i requires 0 <= i < |fs| => Step(fs[i]))
  }

  /** `fs` applied to `p` from first to last. */
  function ApplyInOrder<P>(fs: seq<P -> P>, p: P): P
    decreases |fs|
  {
    if fs == [] then p else ApplyInOrder(fs[1..], fs[0](p))
  }

  /**
   * Hooks run in list order: with hooks that each transform the payload and
   * call `next`, the destination sees the first hook's transformation
   * applied first and the last one's applied last.
   */
  lemma {:induction false} StepsRunInOrder<P, A>(fs: seq<P -> P>, payload: P, args: A, destination: (P, A) -> P)
    ensures Delivered(Steps<P, A>(fs), payload, args) == Some(ApplyInOrder(fs, payload))
    ensures Pipe(Steps<P, A>(fs), payload, args, destination) == destination(ApplyInOrder(fs, payload), args)
    decreases |fs|
  {
    if fs != [] {
      assert Steps<P, A>(fs)[1..] == Steps<P, A>(fs[1..]);
      StepsRunInOrder(fs[1..], fs[0](payload), args, destination);
    }
  }

  /** A hook that calls `next` with the payload unchanged and answers with `g` of what comes back. */
  function Post<P, A>(g: P -> P): Stage<P, A> {
    Around((p: P, a: A) => p, (p: P, r: P, a: A) => g(r))
  }

  function PostSteps<P, A>(gs: seq<P -> P>): (r: seq<Stage<P, A>>)
    ensures |r| == |gs|
    ensures forall i :: 0 <= i < |gs| ==> r[i] == Post(gs[i])
  {
    seq(|gs|, i requires 0 <= i < |gs| => Post(gs[i]))
  }

  /** `gs` applied to `x` from last to first: the first function is applied last. */
  function ApplyOutward<P>(gs: seq<P -> P>, x: P): P
    decreases |gs|
  {
    if gs == [] then x else gs[0](ApplyOutward(gs[1..], x))
  }

  /**
   * Answers flow back out through the hooks: with hooks that each pass the
   * payload on and post-process what `next` returns, the destination's
   * answer is post-processed by the last hook first and by the first
   * (outermost) hook last.
   */
  lemma {:induction false} PostStepsWrapOutward<P, A>(gs: seq<P -> P>, payload: P, args: A, destination: (P, A) -> P)
    ensures Delivered(PostSteps<P, A>(gs), payload, args) == Some(payload)
    ensures Pipe(PostSteps<P, A>(gs), payload, args, destination) == ApplyOutward(gs, destination(payload, args))
    decreases |gs|
  {
    if gs != [] {
      assert PostSteps<P, A>(gs)[1..] == PostSteps<P, A>(gs[1..]);
      PostStepsWrapOutward(gs[1..], payload, args, destination);
    }
  }

  function AppendText(suffix: string): string -> string {
    (s: string) => s + suffix
  }

  /**
   * The pipeline tests: a payload "start" through hooks appending ",first",
   * ",second" and ",third", each calling `next`, and a destination appending
   * ",end" gives "start,first,second,third,end"; with no hooks the
   * destination's answer is returned as it is.
   */
  lemma PipesRunInGivenOrder(args: Arguments.Bag<string>)
    ensures Pipe([], "start", args, (p: string, a: Arguments.Bag<string>) => "end") == "end"
    ensures Pipe(Steps<string, Arguments.Bag<string>>([AppendText(",first"), AppendText(",second"), AppendText(",third")]),
                 "start", args, (p: string, a: Arguments.Bag<string>) => p + ",end")
         == "start,first,second,third,end"
  {
    var fs := [AppendText(",first"), AppendText(",second"), AppendText(",third")];
    var destination := (p: string, a: Arguments.Bag<string>) => p + ",end";
    StepsRunInOrder(fs, "start", args, destination);
    assert ApplyInOrder(fs, "start") == "start,first,second,third" by {
      assert fs[1..][1..] == [AppendText(",third")];
    }
  }

  /** A payload transformation appending `prefix` and the bag's value of `name`. */
  function AppendArg(prefix: string, name: string): (string, Arguments.Bag<string>) -> string {
    (p: string, a: Arguments.Bag<string>) => p + prefix + Arguments.GetOr(a, name, "")
  }

  /** A hook's answer that is just what `next` returned. */
  function PassBack<P, A>(): (P, P, A) -> P {
    (p: P, r: P, a: A) => r
  }

  /**
   * The same bag reaches every hook and the destination: a hook appending
   * ",pipe-" and the bag's "foo" and a destination appending ",end-" and
   * the bag's "foo", with "foo" bound to "bar", give "start,pipe-bar,end-bar".
   */
  lemma ArgumentsReachEveryStage()
    ensures Pipe([Around(AppendArg(",pipe-", "foo"), PassBack())], "start",
                 Arguments.Of([("foo", "bar")]), AppendArg(",end-", "foo"))
         == "start,pipe-bar,end-bar"
  {
    var args := Arguments.Of([("foo", "bar")]);
    var hook: Stage<string, Arguments.Bag<string>> := Around(AppendArg(",pipe-", "foo"), PassBack());
    Arguments.SingleEntry("foo", "bar");
    assert AppendArg(",pipe-", "foo")("start", args) == "start,pipe-bar" by {
      assert "start" + ",pipe-" + "bar" == "start,pipe-bar";
    }
    assert hook.route("start", args) == Next("start,pipe-bar");
    assert AppendArg(",end-", "foo")("start,pipe-bar", args) == "start,pipe-bar,end-bar" by {
      assert "start,pipe-bar" + ",end-" + "bar" == "start,pipe-bar,end-bar";
    }
    assert [hook][1..] == [];
    assert Pipe([], "start,pipe-bar", args, AppendArg(",end-", "foo")) == "start,pipe-bar,end-bar";
  }
}
