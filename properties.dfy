/** What the attempt loop of aioretry/retry.py promises, proved about its
    specification `Run` (and so, through the contract of `Perform`, about
    the loop itself). */
module RetryProperties {
  import opened RetryTypes
  import opened RetryLoop

  /** After failure `e`, counted as `fails`, the policy neither raises nor
      abandons and the hook, if there is one, completes: the loop goes on. */
  predicate GoesOn(fails: int, e: Error, policy: Policy, hook: Option<Hook>)
  {
    && policy(fails, e).Returned?
    && !policy(fails, e).value.abandon
    && (hook.Some? ==> HookError(hook.value, e, fails).None?)
  }

  /** The first `k` attempts all raised an exception of the Exception family
      and each was followed by another attempt. */
  predicate RetriedThrough<V>(fails: int, fn: seq<Outcome<V>>, k: nat, policy: Policy, hook: Option<Hook>)
  {
    && k <= |fn|
    && forall j :: 0 <= j < k ==>
         fn[j].Raised? && fn[j].error.isException && GoesOn(fails + j + 1, fn[j].error, policy, hook)
  }

  /** The trace of those first `k` attempts. */
  function RetryPrefix<A, V>(fails: int, fn: seq<Outcome<V>>, k: nat, policy: Policy, hook: Option<Hook>, args: A)
    : seq<Event<A>>
    requires RetriedThrough(fails, fn, k, policy, hook)
    decreases k
  {
    if k == 0 then []
    else
      assert fn[1..][..k - 1] == fn[1..k];
      [Called(args)] + AfterFailure<A>(fails + 1, fn[0].error, policy, hook).events
        + RetryPrefix(fails + 1, fn[1..], k - 1, policy, hook, args)
  }

  // ---------------------------------------------------------------------
  // One round: the handling of one caught failure

  /** The loop goes on after a failure exactly when the policy answers
      without abandoning and the hook completes; the policy is always
      consulted first, with the counter and the error just caught. */
  lemma RoundContinuesIff<A>(fails: int, e: Error, policy: Policy, hook: Option<Hook>)
    ensures AfterFailure<A>(fails, e, policy, hook).Continue? <==> GoesOn(fails, e, policy, hook)
    ensures AfterFailure<A>(fails, e, policy, hook).events[0] == AskedPolicy(fails, e)
  {
  }

  /** Sleeping depends on the delay alone: a round that goes on sleeps, once,
      for the policy's delay exactly when that delay is positive; a delay of
      0 (or less) goes straight to the next attempt. */
  lemma SleepOnlyWhenPositive<A>(fails: int, e: Error, policy: Policy, hook: Option<Hook>)
    requires GoesOn(fails, e, policy, hook)
    ensures var d := policy(fails, e).value.delay;
            var events := AfterFailure<A>(fails, e, policy, hook).events;
            && (Slept(d) in events <==> d > 0.0)
            && (forall ev :: ev in events && ev.Slept? ==> ev == Slept(d))
            && forall i, j :: 0 <= i < j < |events| && events[i].Slept? ==> !events[j].Slept?
  {
  }

  /** Awaiting makes no difference: a hook that completes or raises at once
      and one that returns an awaitable doing the same have the same effect
      on the loop (`await_coro` hands a plain value back as it is). */
  lemma AwaitingIsTransparent<A>(fails: int, e: Error, policy: Policy, sync: Hook, async: Hook, reason: Option<Error>)
    requires sync(e, fails) == if reason.None? then Returned(Plain(())) else Raised(reason.value)
    requires async(e, fails) == Returned(Pending(if reason.None? then Returned(()) else Raised(reason.value)))
    ensures AfterFailure<A>(fails, e, policy, Some(sync)) == AfterFailure<A>(fails, e, policy, Some(async))
    ensures HookError(sync, e, fails).Some? <==> reason.Some?
  {
  }

  /** The events of one round, whatever its end: the policy comes first, a
      hook call carries the counter the policy saw, a sleep has a positive
      delay, and nothing in it is an attempt. */
  lemma RoundShape<A>(fails: int, e: Error, policy: Policy, hook: Option<Hook>, args: A)
    ensures var events := AfterFailure<A>(fails, e, policy, hook).events;
            && AskedFails(events) == [fails]
            && Attempts(events) == 0
            && HookFollowsPolicy([Called(args)] + events)
            && SleepsPositive(events)
            && CallsWith([Called(args)] + events, args)
  {
    var events := AfterFailure<A>(fails, e, policy, hook).events;
    assert 1 <= |events| <= 3;
    assert events[0] == AskedPolicy(fails, e);
    assert forall j :: 1 <= j < |events| ==> !events[j].AskedPolicy? && !events[j].Called?;
    assert forall j :: 0 <= j < |events| && events[j].RanHook? ==> j == 1 && events[j] == RanHook(e, fails);
    AllEventsAfterFirst(events);
  }

  /** A trace whose events after the first neither invoke the operation nor
      consult the policy. */
  lemma {:induction false} AllEventsAfterFirst<A>(events: seq<Event<A>>)
    requires |events| >= 1 && events[0].AskedPolicy?
    requires forall j :: 1 <= j < |events| ==> !events[j].AskedPolicy? && !events[j].Called?
    ensures AskedFails(events) == [events[0].fails]
    ensures Attempts(events) == 0
  {
    NoAsksNoAttempts(events[1..]);
  }

  lemma {:induction false} NoAsksNoAttempts<A>(events: seq<Event<A>>)
    requires forall j :: 0 <= j < |events| ==> !events[j].AskedPolicy? && !events[j].Called?
    ensures AskedFails(events) == [] && Attempts(events) == 0
  {
    if events != [] {
      NoAsksNoAttempts(events[1..]);
    }
  }

  // ---------------------------------------------------------------------
  // Trace predicates

  /** Every call of the hook comes right after the policy was consulted with
      the same error and the same counter. */
  ghost predicate HookFollowsPolicy<A>(t: seq<Event<A>>)
  {
    forall j :: 0 <= j < |t| && t[j].RanHook? ==> 0 < j && t[j - 1] == AskedPolicy(t[j].fails, t[j].error)
  }

  /** Every sleep has a positive delay. */
  ghost predicate SleepsPositive<A>(t: seq<Event<A>>)
  {
    forall j :: 0 <= j < |t| && t[j].Slept? ==> t[j].delay > 0.0
  }

  /** Every attempt invokes the operation with `args`. */
  ghost predicate CallsWith<A>(t: seq<Event<A>>, args: A)
  {
    forall j :: 0 <= j < |t| && t[j].Called? ==> t[j].args == args
  }

  lemma TracePredicatesConcat<A>(a: seq<Event<A>>, b: seq<Event<A>>, args: A)
    requires HookFollowsPolicy(a) && SleepsPositive(a) && CallsWith(a, args)
    requires HookFollowsPolicy(b) && SleepsPositive(b) && CallsWith(b, args)
    requires b != [] ==> !b[0].RanHook?
    ensures HookFollowsPolicy(a + b) && SleepsPositive(a + b) && CallsWith(a + b, args)
  {
    var t := a + b;
    forall j | 0 <= j < |t| && t[j].RanHook?
      ensures 0 < j && t[j - 1] == AskedPolicy(t[j].fails, t[j].error)
    {
      if j >= |a| {
        assert t[j] == b[j - |a|];
        assert t[j - 1] == b[j - |a| - 1];
      } else {
        assert t[j] == a[j];
      }
    }
    assert forall j :: |a| <= j < |t| ==> t[j] == b[j - |a|];
  }

  lemma CountsFromCons(x: int, s: seq<int>)
    requires CountsFrom(s, x + 1)
    ensures CountsFrom([x] + s, x)
  {
    assert forall j :: 1 <= j < |s| + 1 ==> ([x] + s)[j] == s[j - 1];
  }

  // ---------------------------------------------------------------------
  // Whole runs

  /** On every run that ends: the policy is consulted with `fails + 1,
      fails + 2, …` in order (the counter grows by exactly one per caught
      failure and never resets), the hook gets the very counter and error the
      policy just saw, every sleep has a positive delay, every attempt uses
      the same arguments, and the operation is invoked at least once and at
      most once per outcome. */
  lemma {:induction false} RunTrace<A, V>(fails: int, fn: seq<Outcome<V>>, policy: Policy, hook: Option<Hook>, args: A)
    requires Run(fails, fn, policy, hook, args).Some?
    ensures var t := Run(fails, fn, policy, hook, args).value.trace;
            && t != [] && t[0] == Called(args)
            && CountsFrom(AskedFails(t), fails + 1)
            && HookFollowsPolicy(t)
            && SleepsPositive(t)
            && CallsWith(t, args)
            && 1 <= Attempts(t) <= |fn|
    decreases |fn|
  {
    var t := Run(fails, fn, policy, hook, args).value.trace;
    if fn[0].Raised? && fn[0].error.isException {
      var head := CaughtFirst(fails, fn, policy, hook, args);
      if AfterFailure<A>(fails + 1, fn[0].error, policy, hook).Continue? {
        var rest := Run(fails + 1, fn[1..], policy, hook, args).value.trace;
        RunTrace(fails + 1, fn[1..], policy, hook, args);
        assert t == head + rest;
        AskedFailsConcat(head, rest);
        AttemptsConcat(head, rest);
        CountsFromCons(fails + 1, AskedFails(rest));
        TracePredicatesConcat(head, rest, args);
      } else {
        CountsFromCons(fails + 1, []);
      }
    } else {
      assert t == [Called(args)];
    }
  }

  /** A first attempt whose failure is caught: its round `head` holds one
      attempt and one consultation, with the counter `fails + 1`, and keeps
      the trace predicates; it is the whole trace when the round stops and
      opens it when the round goes on. */
  lemma CaughtFirst<A, V>(fails: int, fn: seq<Outcome<V>>, policy: Policy, hook: Option<Hook>, args: A)
    returns (head: seq<Event<A>>)
    requires fn != [] && fn[0].Raised? && fn[0].error.isException
    ensures var round := AfterFailure<A>(fails + 1, fn[0].error, policy, hook);
            && head == [Called(args)] + round.events
            && (round.Stop? ==> Run(fails, fn, policy, hook, args) == Some(Final(Raised(round.error), head)))
            && (round.Continue? ==> Run(fails, fn, policy, hook, args)
                                      == Prepend(head, Run(fails + 1, fn[1..], policy, hook, args)))
    ensures Attempts(head) == 1 && AskedFails(head) == [fails + 1]
    ensures HookFollowsPolicy(head) && SleepsPositive(head) && CallsWith(head, args)
  {
    var e := fn[0].error;
    RoundShape(fails + 1, e, policy, hook, args);
    var events := AfterFailure<A>(fails + 1, e, policy, hook).events;
    head := [Called(args)] + events;
    AskedFailsConcat([Called(args)], events);
    AttemptsConcat([Called(args)], events);
  }

  /** How every finished run ends, at its last attempt `n`: the attempts
      before it all raised an exception of the Exception family, and the
      policy was consulted once per caught failure. When the `n`-th attempt
      returns, or raises an exception outside the family, that outcome is the
      result and the policy was consulted `n - 1` times; otherwise its
      failure was caught too, the policy was consulted `n` times, and the run
      raises. */
  lemma {:induction false} RunEnding<A, V>(fails: int, fn: seq<Outcome<V>>, policy: Policy, hook: Option<Hook>, args: A)
    requires Run(fails, fn, policy, hook, args).Some?
    ensures var f := Run(fails, fn, policy, hook, args).value;
            var n := Attempts(f.trace);
            && 1 <= n <= |fn|
            && (forall j :: 0 <= j < n - 1 ==> fn[j].Raised? && fn[j].error.isException)
            && var last := fn[n - 1];
               var caught := last.Raised? && last.error.isException;
               && |AskedFails(f.trace)| == (if caught then n else n - 1)
               && (!caught ==> f.result == last)
               && (caught ==> f.result.Raised?)
    decreases |fn|
  {
    var f := Run(fails, fn, policy, hook, args).value;
    if fn[0].Raised? && fn[0].error.isException {
      var head := CaughtFirst(fails, fn, policy, hook, args);
      if AfterFailure<A>(fails + 1, fn[0].error, policy, hook).Continue? {
        RunEnding(fails + 1, fn[1..], policy, hook, args);
        var rest := Run(fails + 1, fn[1..], policy, hook, args).value;
        assert f.trace == head + rest.trace && f.result == rest.result;
        AskedFailsConcat(head, rest.trace);
        AttemptsConcat(head, rest.trace);
        var m := Attempts(rest.trace);
        assert fn[1..][m - 1] == fn[m];
        forall j | 0 <= j < m
          ensures fn[j].Raised? && fn[j].error.isException
        {
          if j > 0 {
            assert fn[j] == fn[1..][j - 1];
          }
        }
      }
    } else {
      assert f.trace == [Called(args)];
    }
  }

  /** Skipping the first `k` retried attempts: the run is their trace followed
      by the run that starts at attempt `k + 1` with the counter at
      `fails + k`; those `k` attempts invoke the operation `k` times. */
  lemma {:induction false} RunAfterRetries<A, V>(fails: int, fn: seq<Outcome<V>>, k: nat, policy: Policy, hook: Option<Hook>, args: A)
    requires RetriedThrough(fails, fn, k, policy, hook)
    ensures Run(fails, fn, policy, hook, args)
         == Prepend(RetryPrefix(fails, fn, k, policy, hook, args), Run(fails + k, fn[k..], policy, hook, args))
    ensures Attempts(RetryPrefix(fails, fn, k, policy, hook, args)) == k
    ensures |AskedFails(RetryPrefix(fails, fn, k, policy, hook, args))| == k
    decreases k
  {
    if k == 0 {
      assert fn[0..] == fn;
      PrependNothing(Run(fails, fn, policy, hook, args));
    } else {
      var head := RetriedHead(fails, fn, k, policy, hook, args);
      RunAfterRetries(fails + 1, fn[1..], k - 1, policy, hook, args);
      var rest := RetryPrefix(fails + 1, fn[1..], k - 1, policy, hook, args);
      var later := Run(fails + k, fn[k..], policy, hook, args);
      assert fn[1..][k - 1..] == fn[k..];
      calc {
        Run(fails, fn, policy, hook, args);
        Prepend(head, Run(fails + 1, fn[1..], policy, hook, args));
        Prepend(head, Prepend(rest, later));
        { PrependTwice(head, rest, later); }
        Prepend(head + rest, later);
      }
      AttemptsConcat(head, rest);
      AskedFailsConcat(head, rest);
    }
  }

  /** The first of `k > 0` retried attempts: its round `head` opens both the
      run and the prefix, it holds one attempt and one consultation, and the
      remaining `k - 1` attempts are retried ones from counter `fails + 1`. */
  lemma RetriedHead<A, V>(fails: int, fn: seq<Outcome<V>>, k: nat, policy: Policy, hook: Option<Hook>, args: A)
    returns (head: seq<Event<A>>)
    requires 0 < k && RetriedThrough(fails, fn, k, policy, hook)
    ensures RetriedThrough(fails + 1, fn[1..], k - 1, policy, hook)
    ensures Run(fails, fn, policy, hook, args) == Prepend(head, Run(fails + 1, fn[1..], policy, hook, args))
    ensures RetryPrefix(fails, fn, k, policy, hook, args) == head + RetryPrefix(fails + 1, fn[1..], k - 1, policy, hook, args)
    ensures Attempts(head) == 1 && |AskedFails(head)| == 1
  {
    RoundContinuesIff<A>(fails + 1, fn[0].error, policy, hook);
    head := CaughtFirst(fails, fn, policy, hook, args);
    forall j | 0 <= j < k - 1
      ensures fn[1..][j].Raised? && fn[1..][j].error.isException
           && GoesOn(fails + 1 + j + 1, fn[1..][j].error, policy, hook)
    {
      assert fn[1..][j] == fn[j + 1];
    }
  }

  /** The `n`-th attempt ends the run as `last` decides, after `n - 1` retried
      ones: the run's trace is theirs followed by the `n`-th attempt and its
      round, and the operation has been invoked exactly `n` times. */
  lemma LastRound<A, V>(fails: int, fn: seq<Outcome<V>>, n: nat, policy: Policy, hook: Option<Hook>, args: A,
                         result: Outcome<V>, events: seq<Event<A>>)
    requires 1 <= n <= |fn| && RetriedThrough(fails, fn, n - 1, policy, hook)
    requires Run(fails + n - 1, fn[n - 1..], policy, hook, args) == Some(Final(result, [Called(args)] + events))
    requires Attempts(events) == 0
    ensures Run(fails, fn, policy, hook, args)
         == Some(Final(result, RetryPrefix(fails, fn, n - 1, policy, hook, args) + ([Called(args)] + events)))
    ensures Attempts(Run(fails, fn, policy, hook, args).value.trace) == n
  {
    RunAfterRetries(fails, fn, n - 1, policy, hook, args);
    var prefix := RetryPrefix(fails, fn, n - 1, policy, hook, args);
    AttemptsConcat([Called(args)], events);
    AttemptsConcat(prefix, [Called(args)] + events);
  }

  /** A first attempt that succeeds: its value is returned, and neither the
      policy nor the hook is invoked. */
  lemma SucceedsFirst<A, V>(fails: int, fn: seq<Outcome<V>>, policy: Policy, hook: Option<Hook>, args: A)
    requires fn != [] && fn[0].Returned?
    ensures Run(fails, fn, policy, hook, args) == Some(Final(fn[0], [Called(args)]))
  {
  }

  /** After `n - 1` retried failures, an `n`-th attempt that succeeds: its
      value is returned and the operation was invoked `n` times. */
  lemma SucceedsOnNth<A, V>(fails: int, fn: seq<Outcome<V>>, n: nat, policy: Policy, hook: Option<Hook>, args: A)
    requires 1 <= n <= |fn| && RetriedThrough(fails, fn, n - 1, policy, hook)
    requires fn[n - 1].Returned?
    ensures Run(fails, fn, policy, hook, args)
         == Some(Final(fn[n - 1], RetryPrefix(fails, fn, n - 1, policy, hook, args) + [Called(args)]))
    ensures Attempts(Run(fails, fn, policy, hook, args).value.trace) == n
  {
    assert fn[n - 1..][0] == fn[n - 1];
    assert [Called(args)] + [] == [Called(args)];
    LastRound(fails, fn, n, policy, hook, args, fn[n - 1], []);
  }

  /** The policy abandons on the `n`-th failure: exactly that failure's
      exception is re-raised, unchanged, after exactly `n` invocations, and the
      last thing that happened is that the policy was consulted with counter
      `fails + n` (the hook is not called for that failure). The caller of
      `perform` gets that exception as it leaves the coroutine: a
      StopIteration arrives as a RuntimeError. */
  lemma AbandonOnNth<A, V>(fails: int, fn: seq<Outcome<V>>, n: nat, policy: Policy, hook: Option<Hook>, args: A)
    requires 1 <= n <= |fn| && RetriedThrough(fails, fn, n - 1, policy, hook)
    requires fn[n - 1].Raised? && fn[n - 1].error.isException
    requires policy(fails + n, fn[n - 1].error).Returned? && policy(fails + n, fn[n - 1].error).value.abandon
    ensures Run(fails, fn, policy, hook, args)
         == Some(Final(Raised(fn[n - 1].error),
                       RetryPrefix(fails, fn, n - 1, policy, hook, args)
                         + [Called(args), AskedPolicy(fails + n, fn[n - 1].error)]))
    ensures Attempts(Run(fails, fn, policy, hook, args).value.trace) == n
    ensures PerformCall(fails, fn, policy, hook, args).value.result == LeaveCoroutine(Raised(fn[n - 1].error))
  {
    var e := fn[n - 1].error;
    assert fn[n - 1..][0] == fn[n - 1];
    assert [Called(args)] + [AskedPolicy(fails + n, e)] == [Called(args), AskedPolicy(fails + n, e)];
    LastRound(fails, fn, n, policy, hook, args, Raised(e), [AskedPolicy(fails + n, e)]);
  }

  /** The policy itself raises on the `n`-th failure: that exception leaves
      the loop in place of the operation's, after exactly `n` invocations,
      and reaches the caller of `perform` as it leaves the coroutine. */
  lemma PolicyRaisesOnNth<A, V>(fails: int, fn: seq<Outcome<V>>, n: nat, policy: Policy, hook: Option<Hook>, args: A)
    requires 1 <= n <= |fn| && RetriedThrough(fails, fn, n - 1, policy, hook)
    requires fn[n - 1].Raised? && fn[n - 1].error.isException
    requires policy(fails + n, fn[n - 1].error).Raised?
    ensures Run(fails, fn, policy, hook, args)
         == Some(Final(Raised(policy(fails + n, fn[n - 1].error).error),
                       RetryPrefix(fails, fn, n - 1, policy, hook, args)
                         + [Called(args), AskedPolicy(fails + n, fn[n - 1].error)]))
    ensures Attempts(Run(fails, fn, policy, hook, args).value.trace) == n
    ensures PerformCall(fails, fn, policy, hook, args).value.result
         == LeaveCoroutine(Raised(policy(fails + n, fn[n - 1].error).error))
  {
    var e := fn[n - 1].error;
    assert fn[n - 1..][0] == fn[n - 1];
    assert [Called(args)] + [AskedPolicy(fails + n, e)] == [Called(args), AskedPolicy(fails + n, e)];
    LastRound(fails, fn, n, policy, hook, args, Raised(policy(fails + n, e).error), [AskedPolicy(fails + n, e)]);
  }

  /** The hook raises an exception of the Exception family on the `n`-th
      failure: the loop raises a RuntimeError whose message is the fixed
      prefix followed by the hook's error, after exactly `n` invocations; the
      hook got the same counter the policy saw, and there is no sleep. */
  lemma HookRaisesOnNth<A, V>(fails: int, fn: seq<Outcome<V>>, n: nat, policy: Policy, hook: Hook, args: A,
                              reason: Error)
    requires 1 <= n <= |fn| && RetriedThrough(fails, fn, n - 1, policy, Some(hook))
    requires fn[n - 1].Raised? && fn[n - 1].error.isException
    requires policy(fails + n, fn[n - 1].error).Returned? && !policy(fails + n, fn[n - 1].error).value.abandon
    requires reason.isException
    requires hook(fn[n - 1].error, fails + n) in {Raised(reason), Returned(Pending(Raised(reason)))}
    ensures Run(fails, fn, policy, Some(hook), args)
         == Some(Final(Raised(Error("RuntimeError", HookFailurePrefix + reason.text, true)),
                       RetryPrefix(fails, fn, n - 1, policy, Some(hook), args)
                         + [Called(args), AskedPolicy(fails + n, fn[n - 1].error), RanHook(fn[n - 1].error, fails + n)]))
    ensures Attempts(Run(fails, fn, policy, Some(hook), args).value.trace) == n
  {
    var e := fn[n - 1].error;
    assert fn[n - 1..][0] == fn[n - 1];
    var events := [AskedPolicy(fails + n, e), RanHook(e, fails + n)];
    assert [AskedPolicy(fails + n, e)] + [RanHook(e, fails + n)] == events;
    assert [Called(args)] + events == [Called(args), AskedPolicy(fails + n, e), RanHook(e, fails + n)];
    NoAsksNoAttempts(events[1..]);
    assert Attempts(events) == 0;
    LastRound(fails, fn, n, policy, Some(hook), args, Raised(HookFailure(reason)), events);
  }

  /** The hook raises an exception outside the Exception family on the
      `n`-th failure, at once or when awaited: `except Exception` does not
      catch it, so that very exception leaves the loop, unwrapped. */
  lemma HookEscapesOnNth<A, V>(fails: int, fn: seq<Outcome<V>>, n: nat, policy: Policy, hook: Hook, args: A,
                               reason: Error)
    requires 1 <= n <= |fn| && RetriedThrough(fails, fn, n - 1, policy, Some(hook))
    requires fn[n - 1].Raised? && fn[n - 1].error.isException
    requires policy(fails + n, fn[n - 1].error).Returned? && !policy(fails + n, fn[n - 1].error).value.abandon
    requires !reason.isException
    requires hook(fn[n - 1].error, fails + n) in {Raised(reason), Returned(Pending(Raised(reason)))}
    ensures Run(fails, fn, policy, Some(hook), args)
         == Some(Final(Raised(reason),
                       RetryPrefix(fails, fn, n - 1, policy, Some(hook), args)
                         + [Called(args), AskedPolicy(fails + n, fn[n - 1].error), RanHook(fn[n - 1].error, fails + n)]))
    ensures Attempts(Run(fails, fn, policy, Some(hook), args).value.trace) == n
  {
    var e := fn[n - 1].error;
    assert fn[n - 1..][0] == fn[n - 1];
    var events := [AskedPolicy(fails + n, e), RanHook(e, fails + n)];
    assert [AskedPolicy(fails + n, e)] + [RanHook(e, fails + n)] == events;
    assert [Called(args)] + events == [Called(args), AskedPolicy(fails + n, e), RanHook(e, fails + n)];
    NoAsksNoAttempts(events[1..]);
    assert Attempts(events) == 0;
    LastRound(fails, fn, n, policy, Some(hook), args, Raised(reason), events);
  }

  /** An exception outside the Exception family (KeyboardInterrupt, and
      asyncio.CancelledError from Python 3.8 on, …) raised by the `n`-th attempt is not caught: it leaves
      the loop at once, without consulting the policy. */
  lemma UncaughtOnNth<A, V>(fails: int, fn: seq<Outcome<V>>, n: nat, policy: Policy, hook: Option<Hook>, args: A)
    requires 1 <= n <= |fn| && RetriedThrough(fails, fn, n - 1, policy, hook)
    requires fn[n - 1].Raised? && !fn[n - 1].error.isException
    ensures Run(fails, fn, policy, hook, args)
         == Some(Final(fn[n - 1], RetryPrefix(fails, fn, n - 1, policy, hook, args) + [Called(args)]))
    ensures Attempts(Run(fails, fn, policy, hook, args).value.trace) == n
  {
    assert fn[n - 1..][0] == fn[n - 1];
    assert [Called(args)] + [] == [Called(args)];
    LastRound(fails, fn, n, policy, hook, args, fn[n - 1], []);
  }

  /** Leaving the coroutine changes nothing but a StopIteration raised by the
      policy's own step: the caller of `perform` sees the trace of `Run`, and
      a result that differs from `Run`'s replaces a StopIteration that the
      policy raised or abandoned on, its consultation being the last step. */
  lemma {:induction false} LeavingChangesOnlyPolicyEnds<A, V>(fails: int, fn: seq<Outcome<V>>, policy: Policy,
                                                              hook: Option<Hook>, args: A)
    requires Run(fails, fn, policy, hook, args).Some?
    ensures PerformCall(fails, fn, policy, hook, args).Some?
    ensures var f := Run(fails, fn, policy, hook, args).value;
            var c := PerformCall(fails, fn, policy, hook, args).value;
            && c.trace == f.trace
            && (c.result != f.result ==>
                  && f.result.Raised? && f.result.error.className == "StopIteration"
                  && c.result == Raised(CoroutineRaisedStopIteration)
                  && |f.trace| >= 2
                  && var last := f.trace[|f.trace| - 1];
                     && last.AskedPolicy?
                     && (f.result.error == last.error
                         || (policy(last.fails, last.error).Raised? && f.result.error == policy(last.fails, last.error).error)))
    decreases |fn|
  {
    var f := Run(fails, fn, policy, hook, args).value;
    if fn[0].Raised? && fn[0].error.isException {
      var head := CaughtFirst(fails, fn, policy, hook, args);
      if AfterFailure<A>(fails + 1, fn[0].error, policy, hook).Continue? {
        LeavingChangesOnlyPolicyEnds(fails + 1, fn[1..], policy, hook, args);
        var rest := Run(fails + 1, fn[1..], policy, hook, args).value;
        assert f.trace == head + rest.trace && f.result == rest.result;
        if |rest.trace| > 0 {
          assert f.trace[|f.trace| - 1] == rest.trace[|rest.trace| - 1];
        }
      }
    }
  }

  /** Without a hook the trace holds no hook call. */
  lemma {:induction false} NoHookNoHookCalls<A, V>(fails: int, fn: seq<Outcome<V>>, policy: Policy, args: A)
    requires Run(fails, fn, policy, None, args).Some?
    ensures forall ev :: ev in Run(fails, fn, policy, None, args).value.trace ==> !ev.RanHook?
    decreases |fn|
  {
    if fn[0].Raised? && fn[0].error.isException && AfterFailure<A>(fails + 1, fn[0].error, policy, None).Continue? {
      NoHookNoHookCalls(fails + 1, fn[1..], policy, args);
    }
  }
}
