/** The attempt loop `perform` of aioretry/retry.py and the helper
    `await_coro` it uses on the hook's result.

    The operation is given as the sequence of outcomes its successive
    invocations produce (the k-th element is how the k-th call with the
    same arguments ends). `Run` is the specification of the loop as a
    function; the method `Perform` is the loop itself, proved equal to it. */
module RetryLoop {
  import opened RetryTypes

  /** `await_coro`: an awaitable is awaited; any other value is handed back
      as it is, without suspending. */
  function AwaitCoro<V>(a: Awaitable<V>): Outcome<V>
  {
    match a
    case Plain(v) => Returned(v)
    case Pending(o) => o
  }

  const HookFailurePrefix: string := "[aioretry] before_retry failed, reason: "

  /** The RuntimeError that replaces an exception raised by the hook: its
      message is the fixed prefix followed by `str()` of the hook's error. */
  function HookFailure(reason: Error): (r: Error)
    ensures r.className == "RuntimeError" && r.isException
    ensures |r.text| == |HookFailurePrefix| + |reason.text|
    ensures r.text[..|HookFailurePrefix|] == HookFailurePrefix
    ensures r.text[|HookFailurePrefix|..] == reason.text
  {
    Error("RuntimeError", HookFailurePrefix + reason.text, true)
  }

  /** `await await_coro(before_retry(e, fails))` inside its `try`: None when
      it completes; otherwise the exception that leaves the `try`, which is a
      HookFailure for the Exception family and the error itself for the rest. */
  function HookError(hook: Hook, e: Error, fails: int): (r: Option<Error>)
  {
    var awaited := match hook(e, fails)
      case Raised(x) => Raised(x)
      case Returned(a) => AwaitCoro(a);
    match awaited
    case Returned(_) => None
    case Raised(x) => Some(if x.isException then HookFailure(x) else x)
  }

  /** How the handling of one caught failure ends. */
  datatype Round<+A> = Stop(error: Error, events: seq<Event<A>>) | Continue(events: seq<Event<A>>)

  /** The `except Exception as e` branch of `perform` for a caught error `e`,
      `fails` being the already incremented counter. */
  function AfterFailure<A>(fails: int, e: Error, policy: Policy, hook: Option<Hook>): Round<A>
  {
    var asked := [AskedPolicy(fails, e)];
    match policy(fails, e)
    case Raised(pe) => Stop(pe, asked)
    case Returned(d) =>
      if d.abandon then Stop(e, asked)
      else if hook.Some? && HookError(hook.value, e, fails).Some? then
        Stop(HookError(hook.value, e, fails).value, asked + [RanHook(e, fails)])
      else
        var ran := if hook.Some? then [RanHook(e, fails)] else [];
        Continue(asked + ran + (if d.delay > 0.0 then [Slept(d.delay)] else []))
  }

  /** The whole loop, starting with counter `fails` on the outcomes `fn`:
      None when `fn` runs out before the loop ends. */
  function Run<A, V>(fails: int, fn: seq<Outcome<V>>, policy: Policy, hook: Option<Hook>, args: A)
    : Option<Final<A, V>>
    decreases |fn|
  {
    if fn == [] then None
    else match fn[0]
      case Returned(v) => Some(Final(Returned(v), [Called(args)]))
      case Raised(e) =>
        if !e.isException then Some(Final(Raised(e), [Called(args)]))
        else match AfterFailure(fails + 1, e, policy, hook)
          case Stop(x, events) => Some(Final(Raised(x), [Called(args)] + events))
          case Continue(events) => Prepend([Called(args)] + events, Run(fails + 1, fn[1..], policy, hook, args))
  }

  /** What Python raises in place of a StopIteration that leaves the frame of
      an `async def` (PEP 479, in force for every coroutine). */
  const CoroutineRaisedStopIteration: Error := Error("RuntimeError", "coroutine raised StopIteration", true)

  /** How the final outcome `o` of an `async def` body leaves its frame: a
      raised StopIteration becomes `CoroutineRaisedStopIteration`, anything
      else passes unchanged. StopIteration derives from `Exception`. */
  function LeaveCoroutine<V>(o: Outcome<V>): (r: Outcome<V>)
    ensures r.Returned? <==> o.Returned?
    ensures r == o <==> !(o.Raised? && o.error.className == "StopIteration" && o.error.isException)
    ensures r != o ==> r == Raised(CoroutineRaisedStopIteration)
  {
    if o.Raised? && o.error.className == "StopIteration" && o.error.isException then Raised(CoroutineRaisedStopIteration)
    else o
  }

  /** A call `perform(fails, fn, retry_policy, before_retry, *args, **kwargs)`
      as its caller sees it: the loop `Run`, whose final outcome then leaves
      the coroutine through `LeaveCoroutine`. */
  function PerformCall<A, V>(fails: int, fn: seq<Outcome<V>>, policy: Policy, hook: Option<Hook>, args: A)
    : Option<Final<A, V>>
  {
    match Run(fails, fn, policy, hook, args)
    case None => None
    case Some(f) => Some(Final(LeaveCoroutine(f.result), f.trace))
  }

  /** The `try` around `await await_coro(before_retry(e, fails))`: None when
      the hook completes, otherwise the exception that leaves the `try`. */
  method RunHook(hook: Hook, e: Error, fails: int) returns (failure: Option<Error>)
    ensures failure == HookError(hook, e, fails)
    ensures failure.Some? && failure.value.isException ==> failure.value.className == "RuntimeError"
  {
    var called := hook(e, fails);
    var awaited := if called.Raised? then Raised(called.error) else AwaitCoro(called.value);
    if awaited.Returned? {
      return None;
    }
    var reason := awaited.error;
    if reason.isException {
      failure := Some(HookFailure(reason));
    } else {
      failure := Some(reason);
    }
  }

  /** A loop that has produced `trace` and whose remaining run stops with
      `raw` after `round`: the caller of `perform` gets `raw` as it leaves
      the coroutine, after the whole trace. */
  lemma LeaveAfter<A, V>(fails: int, fn: seq<Outcome<V>>, policy: Policy, hook: Option<Hook>, args: A,
                         trace: seq<Event<A>>, count: int, rest: seq<Outcome<V>>, raw: Outcome<V>, round: seq<Event<A>>)
    requires Run(fails, fn, policy, hook, args) == Prepend(trace, Run(count, rest, policy, hook, args))
    requires Run(count, rest, policy, hook, args) == Some(Final(raw, round))
    ensures PerformCall(fails, fn, policy, hook, args) == Some(Final(LeaveCoroutine(raw), trace + round))
  {
  }

  /** `perform(fails, fn, retry_policy, before_retry, *args, **kwargs)`: the
      `while True` loop, returning the operation's result or raising the
      final error, together with the trace of what it did. */
  method Perform<A, V>(fails: int, fn: seq<Outcome<V>>, retryPolicy: Policy, beforeRetry: Option<Hook>, args: A)
    returns (result: Outcome<V>, trace: seq<Event<A>>)
    requires PerformCall(fails, fn, retryPolicy, beforeRetry, args).Some?
    ensures PerformCall(fails, fn, retryPolicy, beforeRetry, args) == Some(Final(result, trace))
  {
    var count := fails;
    var rest := fn;
    trace := [];
    PrependNothing(Run(count, fn, retryPolicy, beforeRetry, args));
    while true
      invariant Run(fails, fn, retryPolicy, beforeRetry, args)
             == Prepend(trace, Run(count, rest, retryPolicy, beforeRetry, args))
      decreases |rest|
    {
      var round: seq<Event<A>> := [Called(args)];
      var attempt := rest[0];
      if attempt.Returned? {
        LeaveAfter(fails, fn, retryPolicy, beforeRetry, args, trace, count, rest, attempt, round);
        result, trace := Returned(attempt.value), trace + round;
        return;
      }
      var e := attempt.error;
      if !e.isException {
        LeaveAfter(fails, fn, retryPolicy, beforeRetry, args, trace, count, rest, attempt, round);
        result, trace := LeaveCoroutine(Raised(e)), trace + round;
        return;
      }
      count := count + 1;
      round := round + [AskedPolicy(count, e)];
      var decision := retryPolicy(count, e);
      if decision.Raised? {
        LeaveAfter(fails, fn, retryPolicy, beforeRetry, args, trace, count - 1, rest, Raised(decision.error), round);
        result, trace := LeaveCoroutine(Raised(decision.error)), trace + round;
        return;
      }
      var abandon, delay := decision.value.abandon, decision.value.delay;
      if abandon {
        LeaveAfter(fails, fn, retryPolicy, beforeRetry, args, trace, count - 1, rest, Raised(e), round);
        result, trace := LeaveCoroutine(Raised(e)), trace + round;
        return;
      }
      if beforeRetry.Some? {
        round := round + [RanHook(e, count)];
        var failure := RunHook(beforeRetry.value, e, count);
        if failure.Some? {
          var x := failure.value;
          assert AfterFailure<A>(count, e, retryPolicy, beforeRetry) == Stop(x, round[1..]);
          assert [Called(args)] + round[1..] == round;
          LeaveAfter(fails, fn, retryPolicy, beforeRetry, args, trace, count - 1, rest, Raised(x), round);
          result := LeaveCoroutine(Raised(x));
          trace := trace + round;
          return;
        }
      }
      if delay > 0.0 {
        round := round + [Slept(delay)];
      }
      assert AfterFailure<A>(count, e, retryPolicy, beforeRetry) == Continue(round[1..]);
      assert [Called(args)] + round[1..] == round;
      assert Run(count - 1, rest, retryPolicy, beforeRetry, args)
          == Prepend(round, Run(count, rest[1..], retryPolicy, beforeRetry, args));
      PrependTwice(trace, round, Run(count, rest[1..], retryPolicy, beforeRetry, args));
      trace := trace + round;
      rest := rest[1..];
    }
  }
}
