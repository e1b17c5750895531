/** The values the retry engine of aioretry passes around: Python exceptions,
    the outcome of a call, the decision of a retry policy, and the trace of
    observable steps (calls of the operation, of the policy and of the hook,
    and sleeps) that one call of the retried operation produces. */
module RetryTypes {

  datatype Option<+T> = None | Some(value: T)

  /** A Python exception object: the name of its class, what `str()` gives
      for it, and whether its class derives from `Exception`. Classes that
      derive only from `BaseException` (KeyboardInterrupt, SystemExit, and
      asyncio.CancelledError from Python 3.8 on; on Python 3.7 it derives
      from `Exception`) are not caught by `except Exception`. */
  datatype Error = Error(className: string, text: string, isException: bool)

  /** How a Python call ends: it returns a value or raises an exception. */
  datatype Outcome<+V> = Returned(value: V) | Raised(error: Error)

  /** What a call may hand back before `await_coro` looks at it: a plain value,
      or an awaitable whose awaiting ends with the given outcome. */
  datatype Awaitable<+V> = Plain(value: V) | Pending(outcome: Outcome<V>)

  /** The pair `(abandon, delay)` a retry policy returns; Python allows an int
      or a float delay, both of which a real covers. */
  datatype Decision = Decision(abandon: bool, delay: real)

  /** A retry policy `retry_policy(fails, exception)`; it may itself raise. */
  type Policy = (int, Error) -> Outcome<Decision>

  /** A `before_retry(exception, fails)` hook; its value is discarded, but the
      call, or the awaiting of what it returns, may raise. */
  type Hook = (Error, int) -> Outcome<Awaitable<()>>

  /** One observable step of the retry loop, in the order it happens. */
  datatype Event<+A> =
    | Called(args: A)                   // the operation is invoked with these arguments
    | AskedPolicy(fails: int, error: Error)  // the policy is consulted
    | RanHook(error: Error, fails: int)      // the before_retry hook is invoked
    | Slept(delay: real)                // asyncio.sleep(delay) is awaited

  /** How a call of the retried operation ends, with its trace. */
  datatype Final<+A, +V> = Final(result: Outcome<V>, trace: seq<Event<A>>)

  /** Puts `events` in front of the trace of a run, if the run ends. */
  function Prepend<A, V>(events: seq<Event<A>>, run: Option<Final<A, V>>): Option<Final<A, V>>
  {
    match run
    case None => None
    case Some(f) => Some(Final(f.result, events + f.trace))
  }

  lemma PrependNothing<A, V>(run: Option<Final<A, V>>)
    ensures Prepend([], run) == run
  {
    if run.Some? {
      assert [] + run.value.trace == run.value.trace;
    }
  }

  lemma PrependTwice<A, V>(a: seq<Event<A>>, b: seq<Event<A>>, run: Option<Final<A, V>>)
    ensures Prepend(a, Prepend(b, run)) == Prepend(a + b, run)
  {
    if run.Some? {
      assert a + (b + run.value.trace) == (a + b) + run.value.trace;
    }
  }

  /** The number of times a trace invokes the operation. */
  function Attempts<A>(trace: seq<Event<A>>): nat
  {
    if trace == [] then 0
    else (if trace[0].Called? then 1 else 0) + Attempts(trace[1..])
  }

  /** The `fails` value the policy is consulted with, in order. */
  function AskedFails<A>(trace: seq<Event<A>>): seq<int>
  {
    if trace == [] then []
    else (if trace[0].AskedPolicy? then [trace[0].fails] else []) + AskedFails(trace[1..])
  }

  /** `s` is `start, start + 1, start + 2, …`. */
  predicate CountsFrom(s: seq<int>, start: int)
  {
    forall j :: 0 <= j < |s| ==> s[j] == start + j
  }

  lemma {:induction false} AttemptsConcat<A>(a: seq<Event<A>>, b: seq<Event<A>>)
    ensures Attempts(a + b) == Attempts(a) + Attempts(b)
  {
    if a != [] {
      assert (a + b)[1..] == a[1..] + b;
      AttemptsConcat(a[1..], b);
    } else {
      assert a + b == b;
    }
  }

  lemma {:induction false} AskedFailsConcat<A>(a: seq<Event<A>>, b: seq<Event<A>>)
    ensures AskedFails(a + b) == AskedFails(a) + AskedFails(b)
  {
    if a != [] {
      assert (a + b)[1..] == a[1..] + b;
      AskedFailsConcat(a[1..], b);
    } else {
      assert a + b == b;
    }
  }
}
