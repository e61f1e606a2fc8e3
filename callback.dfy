/**
 * `asyevent/callback.py`: a coroutine wrapped with execution options. Invoking it runs a loop
 * of iterations; each coerces the arguments, calls the coroutine, and on an exception either
 * routes it to an error-handler event or lets it escape. Time and concurrency are abstracted:
 * sleeps and handler dispatches are steps of a trace, and what the coroutine does on its
 * i-th call is given as `attempts(i)`.
 */
module Callbacks {
  import opened Wrappers
  import opened PyRuntime
  import opened Exceptions
  import opened Coercion
  import Parsing

  /** What reflection reports of the wrapped coroutine. */
  datatype Coroutine = Coroutine(name: string, isAsync: bool, signature: Signature)

  /** The keyword options of `Callback(...)`, `None` where the caller passed none. */
  datatype Options = Options(
    isActive: Option<bool>,
    startDelay: Option<real>,
    refuseHandling: Option<bool>,
    repeatTimes: Option<int>,
    loop: Option<int>,
    loopDelay: Option<real>,
    continueOnError: Option<bool>)

  /** `options.get('repeat_times', options.get('loop', 1))` */
  function RepeatTimesOption(o: Options): (n: int)
    ensures o.repeatTimes.Some? ==> n == o.repeatTimes.value
    ensures o.repeatTimes.None? && o.loop.Some? ==> n == o.loop.value
    ensures o.repeatTimes.None? && o.loop.None? ==> n == 1
  {
    o.repeatTimes.GetOr(o.loop.GetOr(1))
  }

  /** What `Callback(...)` is given: a coroutine function with options, or an existing callback. */
  datatype Source =
    | FromCoroutine(coroutine: Coroutine, isClassmethod: bool, options: Options)
    | FromCallback(callback: Callback)

  /** The exception `Callback(...)` raises for the source, in the order its checks run. */
  function Refusal(source: Source): Option<Error> {
    match source
    case FromCallback(_) => None
    case FromCoroutine(co, isClassmethod, _) =>
      if !co.isAsync then Some(TypeError(NotACoroutine))
      else if isClassmethod && "self" !in co.signature.parameters then Some(ValueError(MissingSelfParameter))
      else None
  }

  /** `coroutine.__name__`, which a callback also carries. */
  function SourceName(source: Source): string {
    match source
    case FromCoroutine(co, _, _) => co.name
    case FromCallback(c) => c.coroutine.name
  }

  /** What one call of the coroutine did. */
  datatype Attempt = Returned | Threw(exception: PyObject)

  /** The arguments `_parse_arguments` hands to the coroutine; `instance` is the wrapper prefix. */
  datatype Prepared = Prepared(instance: Option<object>, args: seq<PyObject>, kwargs: seq<(string, PyObject)>)

  /** One observable step of an invocation. `E` is the type of events (duck typed in Python). */
  datatype Step<E> =
    | Sleep(seconds: real)
    | Call(instance: Option<object>, args: seq<PyObject>, kwargs: seq<(string, PyObject)>)
    | Dispatch(handler: E, error: Error, event: Option<E>, callback: Callback, args: seq<PyObject>, kwargs: seq<(string, PyObject)>)

  /** How `invoke` ended. */
  datatype InvokeOutcome =
    | Skipped                  // the callback was inactive
    | Completed                // every iteration ran; is_running was reset
    | Propagated(error: Error) // an exception escaped; is_running stays true
    | StillLooping             // endless mode, cut after the observed iterations

  /** The settings `_invoke_once` consults. */
  datatype Policy = Policy(refuseHandling: bool, continueOnError: bool, repeatTimes: int, loopDelay: real)

  /** Everything one invocation's iterations depend on. */
  datatype Invocation<E> = Invocation(
    policy: Policy,
    callback: Callback,
    prepared: Result<Prepared, Error>,
    event: Option<E>,
    handler: Option<E>,
    args: seq<PyObject>,
    kwargs: seq<(string, PyObject)>)

  /** The pause that ends an iteration: only when the callback repeats more than once. */
  function LoopDelay<E>(p: Policy): seq<Step<E>> {
    if p.repeatTimes > 1 then [Sleep(p.loopDelay)] else []
  }

  /** Whether an error is routed to the handler rather than re-raised. */
  predicate Handles<E>(inv: Invocation<E>) {
    inv.handler.Some? && !inv.policy.refuseHandling
  }

  /** The call step of an iteration whose arguments were coerced. */
  function CallOf<E>(inv: Invocation<E>): Step<E>
    requires inv.prepared.Ok?
  {
    Call(inv.prepared.value.instance, inv.prepared.value.args, inv.prepared.value.kwargs)
  }

  /**
   * `_invoke_once` when the coroutine behaves as `attempt`: its steps and the exception that escapes it, if any. A
   * handled error is dispatched to the handler; unless `continue_on_error` it skips the pause.
   */
  function Once<E>(inv: Invocation<E>, attempt: Attempt): (seq<Step<E>>, Option<Error>) {
    var called: seq<Step<E>> := if inv.prepared.Ok? then [CallOf(inv)] else [];
    var failure := FailureOf(inv, attempt);
    if failure.None? then (called + LoopDelay(inv.policy), None)
    else if !Handles(inv) then (called, failure)
    else
      var dispatched := called + [Dispatch(inv.handler.value, failure.value, inv.event, inv.callback, inv.args, inv.kwargs)];
      if inv.policy.continueOnError then (dispatched + LoopDelay(inv.policy), None) else (dispatched, None)
  }

  /** The exception an iteration raises: the coercion error, else what the call raised. */
  function FailureOf<E>(inv: Invocation<E>, attempt: Attempt): (e: Option<Error>)
    ensures e.None? <==> inv.prepared.Ok? && attempt.Returned?
  {
    if inv.prepared.Err? then Some(inv.prepared.error)
    else if attempt.Threw? then Some(Raised(attempt.exception))
    else None
  }

  /** The first `k` iterations; none runs after one that let an exception escape. */
  function Run<E>(inv: Invocation<E>, attempts: nat -> Attempt, k: nat): (seq<Step<E>>, Option<Error>) {
    if k == 0 then ([], None)
    else
      var (s, e) := Run(inv, attempts, k - 1);
      if e.Some? then (s, e)
      else
        var (s2, e2) := Once(inv, attempts(k - 1));
        (s + s2, e2)
  }

  /** Once an exception escaped, later iterations add nothing. */
  lemma {:induction false} RunStable<E>(inv: Invocation<E>, attempts: nat -> Attempt, k: nat, n: nat)
    requires k <= n && Run(inv, attempts, k).1.Some?
    ensures Run(inv, attempts, n) == Run(inv, attempts, k)
    decreases n - k
  {
    if k < n {
      RunStable(inv, attempts, k, n - 1);
    }
  }

  function Repeat<T>(s: seq<T>, n: nat): (r: seq<T>)
    ensures |r| == n * |s|
  {
    if n == 0 then [] else Repeat(s, n - 1) + s
  }

  /**
   * When every call returns, `n` iterations are `n` calls, each followed by the loop delay when
   * the callback repeats (the last one too).
   */
  lemma {:induction false} RunAllReturned<E>(inv: Invocation<E>, attempts: nat -> Attempt, n: nat)
    requires inv.prepared.Ok?
    requires forall i :: 0 <= i < n ==> attempts(i) == Returned
    ensures Run(inv, attempts, n) == (Repeat([CallOf(inv)] + LoopDelay(inv.policy), n), None)
  {
    if n > 0 {
      RunAllReturned(inv, attempts, n - 1);
    }
  }

  function CountCalls<E>(s: seq<Step<E>>): nat {
    if s == [] then 0 else (if s[0].Call? then 1 else 0) + CountCalls(s[1..])
  }

  function CountDispatches<E>(s: seq<Step<E>>): nat {
    if s == [] then 0 else (if s[0].Dispatch? then 1 else 0) + CountDispatches(s[1..])
  }

  lemma {:induction false} CountAppend<E>(a: seq<Step<E>>, b: seq<Step<E>>)
    ensures CountCalls(a + b) == CountCalls(a) + CountCalls(b)
    ensures CountDispatches(a + b) == CountDispatches(a) + CountDispatches(b)
  {
    if a != [] {
      assert (a + b)[1..] == a[1..] + b;
      CountAppend(a[1..], b);
    } else {
      assert a + b == b;
    }
  }

  /** How many of the first `n` calls raise. */
  function Failures(attempts: nat -> Attempt, n: nat): nat {
    if n == 0 then 0 else Failures(attempts, n - 1) + (if attempts(n - 1).Threw? then 1 else 0)
  }

  /** With a usable handler one iteration lets nothing escape and dispatches each failure once. */
  lemma HandledOnce<E>(inv: Invocation<E>, attempt: Attempt)
    requires Handles(inv)
    ensures Once(inv, attempt).1.None?
    ensures CountCalls(Once(inv, attempt).0) == (if inv.prepared.Ok? then 1 else 0)
    ensures CountDispatches(Once(inv, attempt).0) == (if inv.prepared.Ok? && attempt.Returned? then 0 else 1)
    ensures FailureOf(inv, attempt).Some? ==>
      Dispatch(inv.handler.value, FailureOf(inv, attempt).value, inv.event, inv.callback, inv.args, inv.kwargs)
        in Once(inv, attempt).0
  {
    var d := LoopDelay<E>(inv.policy);
    if d != [] {
      assert d[1..] == [];
    }
    assert CountCalls(d) == 0 && CountDispatches(d) == 0;
    var e := FailureOf(inv, attempt).GetOr(IndexError);
    var x: Step<E> := Dispatch(inv.handler.value, e, inv.event, inv.callback, inv.args, inv.kwargs);
    assert CountCalls([x]) == 0 && CountDispatches([x]) == 1;
    CountAppend([x], d);
    if inv.prepared.Ok? {
      var c := CallOf(inv);
      assert CountCalls([c]) == 1 && CountDispatches([c]) == 0;
      CountAppend([c], d);
      CountAppend([c], [x]);
      CountAppend([c] + [x], d);
    }
  }

  /**
   * With a handler that is not refused, no exception escapes and the coroutine is called
   * exactly `n` times, whatever `continue_on_error` says: the early `return` only leaves the
   * iteration. Every raising call is dispatched to the handler once.
   */
  lemma {:induction false} HandledRunCallsEveryIteration<E>(inv: Invocation<E>, attempts: nat -> Attempt, n: nat)
    requires Handles(inv) && inv.prepared.Ok?
    ensures Run(inv, attempts, n).1.None?
    ensures CountCalls(Run(inv, attempts, n).0) == n
    ensures CountDispatches(Run(inv, attempts, n).0) == Failures(attempts, n)
  {
    if n > 0 {
      HandledRunCallsEveryIteration(inv, attempts, n - 1);
      HandledOnce(inv, attempts(n - 1));
      CountAppend(Run(inv, attempts, n - 1).0, Once(inv, attempts(n - 1)).0);
    }
  }

  /**
   * Without a usable handler the first raising call ends the invocation: the iterations
   * before it ran clean, the raising call is the last step, and its exception escapes.
   */
  lemma UnhandledStopsAtFirstFailure<E>(inv: Invocation<E>, attempts: nat -> Attempt, k: nat, n: nat)
    requires !Handles(inv) && inv.prepared.Ok?
    requires k < n && attempts(k).Threw?
    requires forall i :: 0 <= i < k ==> attempts(i) == Returned
    ensures Run(inv, attempts, n) ==
      (Repeat([CallOf(inv)] + LoopDelay(inv.policy), k) + [CallOf(inv)], Some(Raised(attempts(k).exception)))
  {
    RunAllReturned(inv, attempts, k);
    RunStable(inv, attempts, k + 1, n);
  }

  /**
   * A coercion error is routed like an exception of the coroutine: handled, every iteration
   * dispatches it and the coroutine is never called; otherwise it escapes the first iteration.
   */
  lemma {:induction false} CoercionErrorRouted<E>(inv: Invocation<E>, attempts: nat -> Attempt, n: nat)
    requires inv.prepared.Err? && n > 0
    ensures Handles(inv) ==>
      Run(inv, attempts, n).1.None? && CountCalls(Run(inv, attempts, n).0) == 0 && CountDispatches(Run(inv, attempts, n).0) == n
    ensures !Handles(inv) ==> Run(inv, attempts, n) == ([], Some(inv.prepared.error))
  {
    if !Handles(inv) {
      var once := Once(inv, attempts(0));
      assert once.0 == [] && once.1 == Some(inv.prepared.error);
      assert Run(inv, attempts, 1) == (Run(inv, attempts, 0).0 + once.0, once.1);
      assert Run(inv, attempts, 0).0 + once.0 == [];
      assert Run(inv, attempts, 1) == ([], Some(inv.prepared.error));
      RunStable(inv, attempts, 1, n);
    } else {
      HandledOnce(inv, attempts(n - 1));
      if n > 1 {
        CoercionErrorRouted(inv, attempts, n - 1);
      }
      CountAppend(Run(inv, attempts, n - 1).0, Once(inv, attempts(n - 1)).0);
    }
  }

  /**
   * The state `Callback(coroutine, is_classmethod, **options)` gives a new callback: not
   * running, no wrapper yet, and every option read with its default.
   */
  predicate Configured(c: Callback, coroutine: Coroutine, isClassmethod: bool, options: Options)
    reads c
  {
    && c.coroutine == coroutine && c.isClassmethod == isClassmethod
    && !c.isRunning && c.wrapper == null
    && c.isActive == options.isActive.GetOr(true)
    && c.startDelay == options.startDelay.GetOr(0.0)
    && c.refuseHandling == options.refuseHandling.GetOr(false)
    && c.repeatTimes == RepeatTimesOption(options)
    && c.loopDelay == options.loopDelay.GetOr(0.0)
    && c.continueOnError == options.continueOnError.GetOr(false)
  }

  /**
   * `self.__dict__ = callback.__dict__`: a new callback starts out with every attribute of the
   * callback it was built from.
   */
  predicate SameAttributes(n: Callback, c: Callback)
    reads n, c
  {
    && n.coroutine == c.coroutine && n.isClassmethod == c.isClassmethod
    && n.isRunning == c.isRunning && n.wrapper == c.wrapper
    && n.isActive == c.isActive && n.startDelay == c.startDelay
    && n.refuseHandling == c.refuseHandling && n.repeatTimes == c.repeatTimes
    && n.loopDelay == c.loopDelay && n.continueOnError == c.continueOnError
  }

  class Callback {
    const coroutine: Coroutine
    const isClassmethod: bool
    var isRunning: bool
    var wrapper: object?
    var isActive: bool
    var startDelay: real
    var refuseHandling: bool
    var repeatTimes: int
    var loopDelay: real
    var continueOnError: bool

    /** The state `__init__` leaves once its checks passed (see `Create`). */
    constructor (coroutine: Coroutine, isClassmethod: bool, options: Options)
      ensures Configured(this, coroutine, isClassmethod, options)
    {
      this.coroutine := coroutine;
      this.isClassmethod := isClassmethod;
      isRunning := false;
      wrapper := null;
      isActive := options.isActive.GetOr(true);
      startDelay := options.startDelay.GetOr(0.0);
      refuseHandling := options.refuseHandling.GetOr(false);
      repeatTimes := RepeatTimesOption(options);
      loopDelay := options.loopDelay.GetOr(0.0);
      continueOnError := options.continueOnError.GetOr(false);
    }

    /** The object `Callback(callback)` builds: a new one carrying `callback`'s attributes. */
    constructor Copy(callback: Callback)
      ensures SameAttributes(this, callback)
    {
      coroutine := callback.coroutine;
      isClassmethod := callback.isClassmethod;
      isRunning := callback.isRunning;
      wrapper := callback.wrapper;
      isActive := callback.isActive;
      startDelay := callback.startDelay;
      refuseHandling := callback.refuseHandling;
      repeatTimes := callback.repeatTimes;
      loopDelay := callback.loopDelay;
      continueOnError := callback.continueOnError;
    }

    /**
     * `Callback(coroutine, is_classmethod, **options)`. Given a callback, a new object takes
     * over that callback's attribute dictionary; given a function, the two checks run before
     * the options are read. Either way the result is a new object.
     */
    static method Create(source: Source) returns (r: Result<Callback, Error>)
      ensures r.Err? <==> Refusal(source).Some?
      ensures r.Err? ==> r.error == Refusal(source).value
      ensures r.Ok? ==> fresh(r.value)
      ensures source.FromCallback? ==> r.Ok? && SameAttributes(r.value, source.callback)
      ensures source.FromCoroutine? && !source.coroutine.isAsync ==> r == Err(TypeError(NotACoroutine))
      ensures source.FromCoroutine? && r.Ok? ==>
        Configured(r.value, source.coroutine, source.isClassmethod, source.options)
    {
      if source.FromCallback? {
        var copy := new Callback.Copy(source.callback);
        return Ok(copy);
      }
      if !source.coroutine.isAsync {
        return Err(TypeError(NotACoroutine));
      }
      if source.isClassmethod && "self" !in source.coroutine.signature.parameters {
        return Err(ValueError(MissingSelfParameter));
      }
      var c := new Callback(source.coroutine, source.isClassmethod, source.options);
      return Ok(c);
    }

    function CurrentPolicy(): Policy
      reads this`refuseHandling, this`continueOnError, this`repeatTimes, this`loopDelay
    {
      Policy(refuseHandling, continueOnError, repeatTimes, loopDelay)
    }

    /**
     * `_parse_arguments`: coerce with the coroutine's signature, then, for a classmethod
     * callback, put the wrapper in front, failing when there is none yet.
     */
    function PrepareArguments(rt: Runtime, args: seq<PyObject>, kwargs: seq<(string, PyObject)>): (r: Result<Prepared, Error>)
      reads this`wrapper
      ensures var parsed := Parsing.ParseParameters(rt, coroutine.signature, args, kwargs);
        && (parsed.Err? ==> r == Err(parsed.error))
        && (parsed.Ok? && isClassmethod && wrapper == null ==> r == Err(ValueError(MissingWrapper)))
        && (r.Ok? <==> parsed.Ok? && (isClassmethod ==> wrapper != null))
        && (r.Ok? ==> r.value.args == parsed.value.0 && r.value.kwargs == parsed.value.1
                      && r.value.instance == (if isClassmethod then Some(wrapper) else None))
    {
      var parsed :- Parsing.ParseParameters(rt, coroutine.signature, args, kwargs);
      if !isClassmethod then Ok(Prepared(None, parsed.0, parsed.1))
      else if wrapper == null then Err(ValueError(MissingWrapper))
      else Ok(Prepared(Some(wrapper), parsed.0, parsed.1))
    }

    /** The iterations an invocation from the current state performs. */
    function InvocationOf<E>(rt: Runtime, args: seq<PyObject>, kwargs: seq<(string, PyObject)>,
                           event: Option<E>, handler: Option<E>): Invocation<E>
      reads this`refuseHandling, this`continueOnError, this`repeatTimes, this`loopDelay, this`wrapper
    {
      Invocation(CurrentPolicy(), this, PrepareArguments(rt, args, kwargs), event, handler, args, kwargs)
    }

    /**
     * `invoke(*args, _event, _handler, **kwargs)`. An inactive callback does nothing. Otherwise
     * it sets `is_running`, sleeps `start_delay`, and runs `repeat_times` iterations, or, when
     * `repeat_times <= 0`, loops without end, of which `fuel` iterations are observed.
     */
    method Invoke<E>(rt: Runtime, args: seq<PyObject>, kwargs: seq<(string, PyObject)>,
                     event: Option<E>, handler: Option<E>, attempts: nat -> Attempt, fuel: nat)
      returns (steps: seq<Step<E>>, outcome: InvokeOutcome)
      modifies this`isRunning
      ensures !old(isActive) ==> steps == [] && outcome == Skipped && isRunning == old(isRunning)
      ensures old(isActive) ==>
        var run := Run(InvocationOf(rt, args, kwargs, event, handler), attempts, if repeatTimes > 0 then repeatTimes else fuel);
        && steps == [Sleep(startDelay)] + run.0
        && outcome == (if run.1.Some? then Propagated(run.1.value) else if repeatTimes > 0 then Completed else StillLooping)
        && isRunning == (outcome != Completed)
    {
      steps, outcome := [], Skipped;
      if !isActive {
        return;
      }
      isRunning := true;
      steps := [Sleep(startDelay)];
      var n := if repeatTimes > 0 then repeatTimes else fuel;
      var trace, escaped := Iterate(rt, args, kwargs, event, handler, attempts, n);
      steps := steps + trace;
      if escaped.Some? {
        outcome := Propagated(escaped.value);
      } else if repeatTimes > 0 {
        isRunning := false;
        outcome := Completed;
      } else {
        outcome := StillLooping;
      }
    }

    /**
     * The loop of `invoke`: `n` calls of `_invoke_once`, stopping at the first exception that
     * escapes one of them.
     */
    method Iterate<E>(rt: Runtime, args: seq<PyObject>, kwargs: seq<(string, PyObject)>,
                      event: Option<E>, handler: Option<E>, attempts: nat -> Attempt, n: nat)
      returns (trace: seq<Step<E>>, escaped: Option<Error>)
      ensures (trace, escaped) == Run(InvocationOf(rt, args, kwargs, event, handler), attempts, n)
    {
      ghost var inv := InvocationOf(rt, args, kwargs, event, handler);
      trace, escaped := [], None;
      var i := 0;
      while i < n
        invariant 0 <= i <= n
        invariant Run(inv, attempts, i) == (trace, None)
      {
        var once, failure := InvokeOnce(rt, args, kwargs, event, handler, attempts(i));
        trace := trace + once;
        if failure.Some? {
          assert Run(inv, attempts, i + 1) == (trace, failure);
          RunStable(inv, attempts, i + 1, n);
          escaped := failure;
          return;
        }
        i := i + 1;
      }
    }

    /**
     * `_invoke_once`: coerce the arguments and call the coroutine, whose behaviour this time is
     * `attempt`. An exception goes to the handler when there is one and handling is not refused,
     * and otherwise escapes (`escaped`). The loop delay follows unless an exception escaped or a
     * handled one ended the iteration early.
     */
    method InvokeOnce<E>(rt: Runtime, args: seq<PyObject>, kwargs: seq<(string, PyObject)>,
                         event: Option<E>, handler: Option<E>, attempt: Attempt)
      returns (steps: seq<Step<E>>, escaped: Option<Error>)
      ensures (steps, escaped) == Once(InvocationOf(rt, args, kwargs, event, handler), attempt)
    {
      steps := [];
      var prepared := PrepareArguments(rt, args, kwargs);
      ghost var inv := InvocationOf(rt, args, kwargs, event, handler);
      assert inv == Invocation(Policy(refuseHandling, continueOnError, repeatTimes, loopDelay), this, prepared, event, handler, args, kwargs);
      var failure: Option<Error> := None;
      if prepared.Ok? {
        steps := [Call(prepared.value.instance, prepared.value.args, prepared.value.kwargs)];
        if attempt.Threw? {
          failure := Some(Raised(attempt.exception));
        }
      } else {
        failure := Some(prepared.error);
      }
      escaped := None;
      if failure.Some? {
        if handler.Some? && !refuseHandling {
          steps := steps + [Dispatch(handler.value, failure.value, event, this, args, kwargs)];
          if !continueOnError {
            return;
          }
        } else {
          escaped := failure;
          return;
        }
      }
      if repeatTimes > 1 {
        steps := steps + [Sleep(loopDelay)];
      }
      assert failure.None? || (Handles(inv) && continueOnError);
      if failure.None? {
        assert prepared.Ok?;
        assert steps == [CallOf(inv)] + LoopDelay(inv.policy);
        assert (steps, escaped) == Once(inv, attempt);
      } else {
        var called: seq<Step<E>> := if prepared.Ok? then [CallOf(inv)] else [];
        var x := Dispatch(handler.value, failure.value, event, this, args, kwargs);
        assert steps == called + [x] + LoopDelay(inv.policy);
        assert Once(inv, attempt).0 == called + [x] + LoopDelay(inv.policy);
        assert (steps, escaped) == Once(inv, attempt);
      }
    }

    method Enable()
      modifies this`isActive
      ensures isActive
    {
      isActive := true;
    }

    method Disable()
      modifies this`isActive
      ensures !isActive
    {
      isActive := false;
    }

    /** `loop(times, delay)`: the shortcut for the two loop settings. */
    method Loop(times: int, delay: real)
      modifies this`repeatTimes, this`loopDelay
      ensures repeatTimes == times && loopDelay == delay
    {
      repeatTimes := times;
      loopDelay := delay;
    }
  }
}
