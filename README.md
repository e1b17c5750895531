# aioretry retry engine in Dafny

This project models the retry engine of aioretry (`aioretry/retry.py`). The
decorator `retry(retry_policy, before_retry)` wraps an asynchronous function.
Here is what happens on every call of the wrapped function:

1. It resolves the retry policy, then the optional `before_retry` hook. A
   callable is used as it is. A string names a method of the call's first
   positional argument.
2. It calls the attempt loop `perform` with the failure counter at 0. A
   keyword argument of the call named `fails`, `fn`, `retry_policy` or
   `before_retry` is also one of `perform`'s own parameters. Python then
   raises `TypeError: perform() got multiple values for argument …`, and the
   function never runs.
3. Each failure of the Exception family raises the counter by one.
4. The policy is asked `(abandon, delay)` for `(fails, exception)`. Abandoning
   re-raises the failure itself.
5. Otherwise the hook runs with `(exception, fails)`, and its result is
   awaited when it is awaitable. An Exception-family error from the hook ends
   the loop with a RuntimeError `[aioretry] before_retry failed, reason: …`.
6. The loop sleeps `delay` seconds only when `delay > 0`, then tries again.
7. An exception outside the Exception family is never caught. Examples are
   KeyboardInterrupt and, from Python 3.8 on, asyncio.CancelledError. On
   Python 3.7, which the package still supports, CancelledError derives from
   `Exception` and is retried like any other failure.
8. `perform` and `wrapped` are coroutines. A StopIteration that leaves one
   of them is replaced by `RuntimeError('coroutine raised StopIteration')`
   (PEP 479). In `perform` only the policy's step can let one out: the
   policy raises it, or abandons on a StopIteration the operation raised.

Modules:

- `RetryTypes` (types.dfy) holds the values:
  - an exception (`Error`: class name, `str()` text, and whether it derives
    from `Exception`);
  - the outcome of a call;
  - a policy decision;
  - the trace of observable steps of one call: operation calls, policy
    calls, hook calls and sleeps.
- `RetryLoop` (loop.dfy) holds `await_coro`, the handling of one caught
  failure, and `perform`. `perform` appears twice. The specification
  function `Run` is the loop. `PerformCall` is `Run` with its final outcome
  leaving the coroutine (`LeaveCoroutine`). The imperative loop `Perform` is
  proved equal to `PerformCall`. The wrapped function is given as the
  sequence of outcomes its successive invocations produce.
- `RetryProperties` (properties.dfy) holds lemmas about `Run`:
  - how each way of ending a run ends it;
  - the counter values the policy and the hook see;
  - sleeps;
  - the number of attempts.
- `MethodResolution` (resolution.dfy) holds `get_method`.
- `RetryDecorator` (decorator.dfy) holds `retry`/`wrapper`/`wrapped`. The
  three curried layers are collapsed into one function `Wrapped`. It also
  holds `WrappedIntended`, the decorator without the keyword clash (see
  "## Findings").
- `RetryScenarios` (scenarios.dfy) holds concrete runs after the cases of
  `test/test_aioretry.py`. Those tests are written for a later policy
  signature (an info object) that `retry.py` does not have. Their policies
  and hooks are restated for the `(fails, exception)` and
  `(exception, fails)` signatures of `retry.py` and checked against this
  model.

Later revisions of aioretry behave differently in several ways. The model
follows `aioretry/retry.py` as written:

- The policy and the hook receive plain `(fails, exception)` and
  `(exception, fails)` arguments, not an episode record with a start time.
- The result of the policy is used as it is and not awaited.
- No warning is emitted.
- A failing hook's exception is not re-raised as it is: it is replaced by a
  RuntimeError carrying its text.
- An exception raised by the policy leaves the loop unchanged, except that
  a StopIteration becomes the RuntimeError of step 8.

The regular expression in `test_error_usage` (`retry_policy as a str
"_retry_policy"`) does not match the message `retry.py` builds, which has a
backtick between `str ` and `"`. `MethodResolution.UsageMessage` states the
message as the code builds it.

## Model

| member | source | states |
|---|---|---|
| RetryLoop.Perform | aioretry/retry.py:36-64 | The `while True` loop, run on the given outcomes, ends with exactly the trace of the specification `Run`. Its result is `Run`'s final outcome as it leaves the coroutine. The loop invariant is that the remaining run, prefixed by the trace so far, is the whole run. |
| RetryLoop.RunHook | aioretry/retry.py:55-60 | Calling the hook and awaiting its result fails exactly as `HookError` says. An Exception-family failure comes out as a RuntimeError. |
| RetryLoop.HookFailure | aioretry/retry.py:57-60 | The error that replaces a hook failure is a RuntimeError of the Exception family. Its message is exactly the fixed prefix followed by `str()` of the hook's exception. |
| RetryProperties.AwaitingIsTransparent | aioretry/retry.py:29-33 | A hook that completes (or raises) at once has the same effect on the loop as one returning an awaitable that does the same, since `await_coro` passes plain values through. The hook stops the loop exactly when it raises. |
| RetryProperties.RoundContinuesIff | aioretry/retry.py:47-64 | Handling a caught failure goes on to another attempt iff all three hold: the policy returns, it does not abandon, and the hook (if any) does not fail. The policy is always consulted first. |
| RetryProperties.SleepOnlyWhenPositive | aioretry/retry.py:62-64 | A round that goes on to another attempt sleeps for the policy's delay iff that delay is positive (a delay of 0 does not sleep). It sleeps at most once, and for no other time. |
| RetryProperties.RoundShape | aioretry/retry.py:47-64 | Whatever its end, one round consults the policy exactly once with the current counter. It makes no attempt. A hook call in it repeats the policy's counter and exception, and any sleep in it is positive. |
| RetryProperties.RunTrace | aioretry/retry.py:44-64 | Every finished run starts by calling the operation with the call's arguments. The policy sees the counters `fails + 1, fails + 2, …` in order. Each hook call immediately follows a policy call with the same exception and counter. Every sleep is positive. All calls use the same arguments. There are between 1 and `|fn|` attempts. |
| RetryProperties.RunEnding | aioretry/retry.py:44-64 | Every finished run with `n` attempts ends as follows. The first `n - 1` attempts all raised Exception-family errors. If the `n`-th returns or raises outside the family, that outcome is the result and the policy was consulted `n - 1` times. Otherwise the policy was consulted `n` times (once per caught failure) and the run raises. |
| RetryProperties.RunAfterRetries | aioretry/retry.py:44-64 | After `k` retried failures the run is their `k` rounds followed by the run restarted at counter `fails + k` on the remaining outcomes. Those rounds hold exactly `k` attempts and `k` policy consultations. |
| RetryProperties.SucceedsFirst | aioretry/retry.py:45-46 | A first attempt that returns gives its value, with one call and no policy or hook call. |
| RetryProperties.SucceedsOnNth | aioretry/retry.py:44-46 | After `n - 1` retried failures, an `n`-th attempt that returns gives that value, after exactly `n` attempts. |
| RetryProperties.AbandonOnNth | aioretry/retry.py:36-52 | When the policy abandons on the `n`-th failure, that very exception is raised after exactly `n` attempts. The last step is the policy consultation with counter `fails + n`, so neither the hook nor a sleep follows. The caller of `perform` gets the exception as it leaves the coroutine: a StopIteration arrives as the RuntimeError. |
| RetryProperties.PolicyRaisesOnNth | aioretry/retry.py:36-49 | An exception raised by the policy leaves the loop in place of the operation's exception, after `n` attempts. The caller of `perform` gets it as it leaves the coroutine: a StopIteration arrives as the RuntimeError. |
| RetryProperties.HookRaisesOnNth | aioretry/retry.py:54-60 | A hook that raises an Exception-family error, at once or when awaited, ends the loop. The result is the RuntimeError carrying the prefix and the hook's error text. The hook got the policy's counter, and no sleep follows. |
| RetryProperties.HookEscapesOnNth | aioretry/retry.py:54-57 | A hook raising an error outside the Exception family, at once or when awaited, is not caught by line 57. That very error leaves the loop unwrapped, after `n` attempts, with the hook call as the last event. |
| RetryProperties.UncaughtOnNth | aioretry/retry.py:45-47 | An exception outside the Exception family leaves the loop at once, without consulting the policy. |
| RetryProperties.LeavingChangesOnlyPolicyEnds | aioretry/retry.py:36-64 | The caller of `perform` sees exactly `Run`'s trace. Its result differs from `Run`'s only when the loop raised a StopIteration. That result is then the RuntimeError, and the last step was a policy consultation: the policy raised the StopIteration or abandoned on it. |
| RetryProperties.NoHookNoHookCalls | aioretry/retry.py:54 | Without a hook the trace holds no hook call. |
| MethodResolution.GetMethod | aioretry/retry.py:67-82 | A non-string target comes back unchanged. A name fails with the usage error when there is no positional argument; otherwise it gives what the lookup on the first positional argument gives. The resolution fails iff the target is a name and there is no receiver or the lookup raises. |
| MethodResolution.UsageErrorNamesRoleAndTarget | aioretry/retry.py:75-78 | The usage error is a RuntimeError whose message contains the parameter's role and the quoted name. |
| MethodResolution.ResolutionReadsOnlyReceiver | aioretry/retry.py:72-82 | Resolution depends only on the receiver: calls with the same first positional argument, or with none, resolve alike. A callable target does not depend on the arguments at all. |
| MethodResolution.KeywordReceiverIsNotUsed | aioretry/retry.py:75-80 | A receiver passed only as a keyword argument is not seen, so a name is a usage error. |
| MethodResolution.UsageMessage | aioretry/retry.py:76-78 | The usage error's message, character for character, for `retry_policy` and `_retry_policy`. |
| RetryDecorator.ResolutionBeforeAnyAttempt | aioretry/retry.py:90-106 | A policy that cannot be resolved, or else a hook that cannot be resolved, raises its error before the function runs; the error leaves the coroutine `wrapped`, so a StopIteration arrives as the RuntimeError. Once both resolve, a keyword that clashes with a parameter of `perform` raises the TypeError naming it. A call makes no attempt iff one of these three happened. |
| RetryDecorator.ClashNamesParameter | aioretry/retry.py:36-43 | A keyword clashes iff it is `fails`, `fn`, `retry_policy` or `before_retry`. The name reported is one the call gives: the first of these four, in parameter order. |
| RetryDecorator.WrappedStartsAtZero | aioretry/retry.py:91-106 | Once both resolve and no keyword clashes, a call is `perform` started at counter 0 with the resolved policy and hook. The hook is None exactly when no `before_retry` was given. |
| RetryDecorator.IntendedPassesEveryKeyword | aioretry/retry.py:90-106 | Once both resolve, the intended decorator is `perform` at counter 0 for every keyword map: at least one attempt, always with the call's own arguments. It equals `Wrapped` when no keyword clashes. It differs from `Wrapped` on every finished call whose keywords clash. |
| RetryDecorator.WrappedCountsFromOne | aioretry/retry.py:91-93 | Seen from the caller, the policy is consulted with 1, 2, 3, … and the hook with the same counters. Every attempt gets the call's own arguments. |
| RetryScenarios.AbandonAfterFourFailures | test/test_aioretry.py:335-347 | A policy that abandons once `fails > 3`, on an operation that always raises 'boom', re-raises 'boom' after four attempts with counters 1 to 4. |
| RetryScenarios.AbandonRun | test/test_aioretry.py:335-347 | The run of that scenario once the policy is resolved: 'boom' after four attempts, with counters 1 to 4. |
| RetryScenarios.FourFailuresThenSuccess | test/test_aioretry.py:228-272 | Four failures, then a result, with a never-abandoning `(fails - 1) * 0.1` policy and a completing hook. The full trace is stated: no sleep before the first retry, then sleeps of 0.1, 0.2 and 0.3, and the value 1. |
| RetryScenarios.FourFailuresRun | test/test_aioretry.py:228-272 | The run of that scenario once both references are resolved: the same full trace and the value 1. |
| RetryScenarios.HookFailureEndsTheCall | test/test_aioretry.py:316-331 | A hook raising 'boom' ends the call after one attempt with `[aioretry] before_retry failed, reason: boom`. |
| RetryScenarios.NamedPolicyWithoutReceiver | test/test_aioretry.py:303-313 | A policy named by a string on a function called without arguments raises the usage error before the function runs. |
| RetryScenarios.KeywordNamedFnNeverRuns | aioretry/retry.py:90-106 | Called with the keyword `fn=0`, the decorated function raises `perform() got multiple values for argument 'fn'` and never runs. The intended decorator returns the operation's value after one call. |
| RetryScenarios.PolicyStopIterationArrivesAsRuntimeError | aioretry/retry.py:36-49 | A policy raising StopIteration after the first failure makes the call raise `RuntimeError('coroutine raised StopIteration')`, after one attempt and one consultation. |
| RetryScenarios.NamedPolicyOnReceiver | test/test_aioretry.py:48-64 | A policy named `_policy` is looked up on the receiver. A run that fails once and then returns 1 calls the operation twice with the same receiver. |

## Findings

| source | as written | input that shows it | evidently intended | confidence | as-written member | corrected member |
|---|---|---|---|---|---|---|
| aioretry/retry.py:90-106 | `wrapped` passes `**kwargs` to `perform` after four parameters `perform` binds by position | a decorated call with the keyword `fn=0`: `perform() got multiple values for argument 'fn'`, and the function never runs | every keyword reaches the decorated function, whatever its name | medium (not executed) | RetryDecorator.Wrapped, shown by RetryScenarios.KeywordNamedFnNeverRuns | RetryDecorator.WrappedIntended, proved by RetryDecorator.IntendedPassesEveryKeyword |

The rest of the model follows the code as written. Its lemmas and scenarios
are about `Wrapped`. `IntendedPassesEveryKeyword` shows that `Wrapped` and
`WrappedIntended` agree on every call without a clashing keyword. All the
scenarios are such calls, except `KeywordNamedFnNeverRuns`.

## Left out

- RetryLoop.Perform: the source loop may run forever, because an operation can fail and a policy can retry without end. The model's operation is a finite sequence of outcomes; `Perform` requires that these outcomes suffice for the loop to end, and `Run` is None when they do not.
- Waiting: `asyncio.sleep` is only recorded as a `Slept(delay)` event. Time, the event loop and cancellation during a sleep or an await are not modelled, since they depend on the scheduler.
- `inspect.isawaitable` and awaiting: an awaitable is shown by its eventual outcome (`Pending`). Suspension and interleaving with other tasks are not modelled.
- Attribute lookup: `getattr` on the receiver, with Python's descriptor and bound-method rules, is a parameter, not modelled code.
- Non-string targets: they are taken to be callables. A target that is an instance of a `str` subclass, which `type(target) is not str` treats as a callable, is not modelled.
- Policy return values: a value that does not unpack into `(abandon, delay)` raises on line 49. That counts as the policy raising.
- Truthiness: `abandon` is a boolean, so the truthiness of other objects is not modelled.
- Delays: a delay is a real number. Floating-point rounding, NaN, and a `delay` for which `delay > 0` would raise are not modelled.
- Exceptions: an exception is its class name, its `str()` text and whether it derives from `Exception`. Tracebacks and `__context__` chaining are not modelled.
- Keyword arguments: they reach every attempt unchanged, with the positional ones, as one `Args` value, unless one of them clashes with a parameter of `perform`. Only the first positional argument is ever inspected.
- RetryDecorator.Clash: with several clashing keywords, Python names the first in the call's keyword order. A map does not keep that order, so the model names the first in `perform`'s parameter order.
- RetryLoop.LeaveCoroutine: an exception is known by its class name only, so a subclass of StopIteration is not replaced by the RuntimeError. Nor is the replacement's `__cause__` modelled.
- StopIteration inside an async operation or hook: it is replaced inside that coroutine already, so the given outcome is the RuntimeError. The model takes outcomes as given.
- Later API: the episode record (failure count, start time, exception) passed to policies and hooks, awaitable policies, and the warnings about misbehaving policies and hooks belong to a later revision. That revision is what the tests are written against, and `aioretry/retry.py` does not contain it.
- Packaging: `setup.py` is not part of this model.
