/** Concrete runs of the decorator, after the cases of test/test_aioretry.py,
    restated for the `(fails, exception)` policy and `(exception, fails)`
    hook signatures of aioretry/retry.py. */
module RetryScenarios {
  import opened RetryTypes
  import opened RetryLoop
  import opened MethodResolution
  import opened RetryDecorator
  import opened RetryProperties

  function RuntimeError(text: string): Error { Error("RuntimeError", text, true) }

  /** No getattr is needed when the policy and the hook are callables. */
  function NoPolicyAttribute(receiver: int, name: string): Outcome<Policy> {
    Raised(Error("AttributeError", name, true))
  }

  function NoHookAttribute(receiver: int, name: string): Outcome<Hook> {
    Raised(Error("AttributeError", name, true))
  }

  const NoArgs: Args<int> := Args([], map[])

  /** The policy of test_abandon: abandon once `fails > 3`, else wait `fails * 0.1`. */
  function AbandonAfterThree(fails: int, e: Error): Outcome<Decision> {
    Returned(Decision(fails > 3, fails as real * 0.1))
  }

  /** The policy of run_retry: never abandon, wait `(fails - 1) * 0.1`. */
  function NeverAbandon(fails: int, e: Error): Outcome<Decision> {
    Returned(Decision(false, (fails - 1) as real * 0.1))
  }

  /** A hook that completes without awaiting anything. */
  function Completes(e: Error, fails: int): Outcome<Awaitable<()>> {
    Returned(Plain(()))
  }

  /** The hook of test_before_retry_fails: raise RuntimeError('boom'). */
  function RaisesBoom(e: Error, fails: int): Outcome<Awaitable<()>> {
    Raised(RuntimeError("boom"))
  }

  /** The operation of test_abandon, which always raises RuntimeError('boom')
      (five attempts' worth of outcomes). */
  function AlwaysBoom(): seq<Outcome<int>> {
    var boom := RuntimeError("boom");
    [Raised(boom), Raised(boom), Raised(boom), Raised(boom), Raised(boom)]
  }

  /** test_abandon: the policy abandons once `fails > 3` and the operation
      always raises RuntimeError('boom'): four attempts, then 'boom' itself. */
  lemma AbandonAfterFourFailures()
    ensures
      var w := Wrapped(Direct(AbandonAfterThree), None, AlwaysBoom(), NoArgs, NoPolicyAttribute, NoHookAttribute);
      w.Some? && w.value.result == Raised(RuntimeError("boom"))
        && Attempts(w.value.trace) == 4 && AskedFails(w.value.trace) == [1, 2, 3, 4]
  {
    WrappedStartsAtZero(Direct(AbandonAfterThree), None, AlwaysBoom(), NoArgs, NoPolicyAttribute, NoHookAttribute);
    AbandonRun();
  }

  /** The run of AbandonAfterFourFailures, once the policy is resolved. */
  lemma AbandonRun()
    ensures var r := Run(0, AlwaysBoom(), AbandonAfterThree, None, NoArgs);
            && r.Some? && r.value.result == Raised(RuntimeError("boom"))
            && Attempts(r.value.trace) == 4 && AskedFails(r.value.trace) == [1, 2, 3, 4]
  {
    var fn := AlwaysBoom();
    assert RetriedThrough(0, fn, 3, AbandonAfterThree, None);
    AbandonOnNth(0, fn, 4, AbandonAfterThree, None, NoArgs);
    RunTrace(0, fn, AbandonAfterThree, None, NoArgs);
    RunEnding(0, fn, AbandonAfterThree, None, NoArgs);
    OneToFour(AskedFails(Run(0, fn, AbandonAfterThree, None, NoArgs).value.trace));
  }

  /** Four counters counting from 1 are 1, 2, 3, 4. */
  lemma OneToFour(s: seq<int>)
    requires |s| == 4 && CountsFrom(s, 1)
    ensures s == [1, 2, 3, 4]
  {
    assert s[0] == 1 && s[1] == 2 && s[2] == 3 && s[3] == 4;
  }

  /** The operation of run_retry: RuntimeError('0') … ('3'), then 1. */
  function FailFourTimes(): seq<Outcome<int>> {
    [Raised(RuntimeError("0")), Raised(RuntimeError("1")), Raised(RuntimeError("2")), Raised(RuntimeError("3")),
     Returned(1)]
  }

  /** run_retry: the operation fails with RuntimeError('0') … ('3') and then
      returns 1; the policy never abandons and asks for `(fails - 1) * 0.1`
      seconds; the hook completes. Five attempts, the hook sees fails 1 to 4,
      and the first retry does not sleep because its delay is 0. */
  lemma FourFailuresThenSuccess()
    ensures
      var e0, e1, e2, e3 := RuntimeError("0"), RuntimeError("1"), RuntimeError("2"), RuntimeError("3");
      (Wrapped(Direct(NeverAbandon), Some(Direct(Completes)), FailFourTimes(), NoArgs, NoPolicyAttribute, NoHookAttribute)
         == Some(Final(Returned(1),
                   [ Called(NoArgs), AskedPolicy(1, e0), RanHook(e0, 1),
                     Called(NoArgs), AskedPolicy(2, e1), RanHook(e1, 2), Slept(0.1),
                     Called(NoArgs), AskedPolicy(3, e2), RanHook(e2, 3), Slept(0.2),
                     Called(NoArgs), AskedPolicy(4, e3), RanHook(e3, 4), Slept(0.3),
                     Called(NoArgs) ])))
  {
    WrappedStartsAtZero(Direct(NeverAbandon), Some(Direct(Completes)), FailFourTimes(), NoArgs,
                        NoPolicyAttribute, NoHookAttribute);
    FourFailuresRun();
  }

  /** The run of FourFailuresThenSuccess, once both references are resolved. */
  lemma FourFailuresRun()
    ensures
      var e0, e1, e2, e3 := RuntimeError("0"), RuntimeError("1"), RuntimeError("2"), RuntimeError("3");
      Run(0, FailFourTimes(), NeverAbandon, Some(Completes), NoArgs)
        == Some(Final(Returned(1),
                  [ Called(NoArgs), AskedPolicy(1, e0), RanHook(e0, 1),
                    Called(NoArgs), AskedPolicy(2, e1), RanHook(e1, 2), Slept(0.1),
                    Called(NoArgs), AskedPolicy(3, e2), RanHook(e2, 3), Slept(0.2),
                    Called(NoArgs), AskedPolicy(4, e3), RanHook(e3, 4), Slept(0.3),
                    Called(NoArgs) ]))
  {
    var e0, e1, e2, e3 := RuntimeError("0"), RuntimeError("1"), RuntimeError("2"), RuntimeError("3");
    var fn := FailFourTimes();
    FromAttempt(0);
    assert fn[0..] == fn;
    assert LaterEvents(0) == RoundEvents(0) + (RoundEvents(1) + (RoundEvents(2) + LaterEvents(3)));
    JoinRounds(RoundEvents(0), RoundEvents(1), RoundEvents(2), LaterEvents(3));
  }

  /** The four pieces of the run_retry trace, joined. */
  lemma JoinRounds(a: seq<Event<Args<int>>>, b: seq<Event<Args<int>>>, c: seq<Event<Args<int>>>,
                   d: seq<Event<Args<int>>>)
    requires var e0 := RuntimeError("0"); a == [Called(NoArgs), AskedPolicy(1, e0), RanHook(e0, 1)]
    requires var e1 := RuntimeError("1"); b == [Called(NoArgs), AskedPolicy(2, e1), RanHook(e1, 2), Slept(0.1)]
    requires var e2 := RuntimeError("2"); c == [Called(NoArgs), AskedPolicy(3, e2), RanHook(e2, 3), Slept(0.2)]
    requires var e3 := RuntimeError("3");
             d == [Called(NoArgs), AskedPolicy(4, e3), RanHook(e3, 4), Slept(0.3), Called(NoArgs)]
    ensures
      var e0, e1, e2, e3 := RuntimeError("0"), RuntimeError("1"), RuntimeError("2"), RuntimeError("3");
      a + (b + (c + d))
        == [ Called(NoArgs), AskedPolicy(1, e0), RanHook(e0, 1),
             Called(NoArgs), AskedPolicy(2, e1), RanHook(e1, 2), Slept(0.1),
             Called(NoArgs), AskedPolicy(3, e2), RanHook(e2, 3), Slept(0.2),
             Called(NoArgs), AskedPolicy(4, e3), RanHook(e3, 4), Slept(0.3),
             Called(NoArgs) ]
  {
  }

  /** The failure of attempt `k + 1` of run_retry. */
  function FailureOf(k: nat): Error
    requires k < 4
  {
    RuntimeError(["0", "1", "2", "3"][k])
  }

  /** The events of the retried attempt `k + 1` of run_retry: the call, the
      policy, the hook, and a sleep of `k * 0.1` seconds when that is
      positive. */
  function RoundEvents(k: nat): seq<Event<Args<int>>>
    requires k < 4
  {
    [Called(NoArgs), AskedPolicy(k + 1, FailureOf(k)), RanHook(FailureOf(k), k + 1)]
      + (if k > 0 then [Slept(k as real * 0.1)] else [])
  }

  /** The trace of run_retry from attempt `k + 1` on. */
  function LaterEvents(k: nat): seq<Event<Args<int>>>
    requires k <= 4
    decreases 4 - k
  {
    if k == 4 then [Called(NoArgs)] else RoundEvents(k) + LaterEvents(k + 1)
  }

  /** From attempt `k + 1` on, run_retry ends with 1 and the trace `LaterEvents(k)`. */
  lemma {:induction false} FromAttempt(k: nat)
    requires k <= 4
    ensures Run(k, FailFourTimes()[k..], NeverAbandon, Some(Completes), NoArgs)
         == Some(Final(Returned(1), LaterEvents(k)))
    decreases 4 - k
  {
    var fn := FailFourTimes();
    if k == 4 {
      assert fn[4..] == [Returned(1)];
    } else {
      FromAttempt(k + 1);
      assert fn[k] == Raised(FailureOf(k)) by {
        assert k == 0 || k == 1 || k == 2 || k == 3;
      }
      RetryRound(k, fn, FailureOf(k), RoundEvents(k));
    }
  }

  /** One retried round of run_retry: attempt `k + 1` raises `e`, and its
      events are `round`. */
  lemma RetryRound(k: nat, fn: seq<Outcome<int>>, e: Error, round: seq<Event<Args<int>>>)
    requires k < |fn| && fn[k] == Raised(e) && e.isException
    requires var d := (k as real) * 0.1;
             round == [Called(NoArgs), AskedPolicy(k + 1, e), RanHook(e, k + 1)] + (if d > 0.0 then [Slept(d)] else [])
    ensures Run(k, fn[k..], NeverAbandon, Some(Completes), NoArgs)
         == Prepend(round, Run(k + 1, fn[k + 1..], NeverAbandon, Some(Completes), NoArgs))
  {
    assert fn[k..][0] == fn[k] && fn[k..][1..] == fn[k + 1..];
    assert NeverAbandon(k + 1, e) == Returned(Decision(false, k as real * 0.1));
    assert [Called(NoArgs)] + AfterFailure<Args<int>>(k + 1, e, NeverAbandon, Some(Completes)).events == round;
  }

  /** test_before_retry_fails: the hook raises RuntimeError('boom') after the
      operation's first failure: a RuntimeError carrying 'boom' in its
      message ends the call after one attempt. */
  lemma HookFailureEndsTheCall()
    ensures
      var haha := RuntimeError("haha");
      var fn: seq<Outcome<int>> := [Raised(haha), Raised(haha)];
      (Wrapped(Direct(NeverAbandon), Some(Direct(RaisesBoom)), fn, NoArgs, NoPolicyAttribute, NoHookAttribute)
         == Some(Final(Raised(RuntimeError("[aioretry] before_retry failed, reason: boom")),
                       [Called(NoArgs), AskedPolicy(1, haha), RanHook(haha, 1)])))
  {
    var haha := RuntimeError("haha");
    assert HookFailure(RuntimeError("boom")) == RuntimeError("[aioretry] before_retry failed, reason: boom");
    assert HookError(RaisesBoom, haha, 1) == Some(HookFailure(RuntimeError("boom")));
    assert [Called(NoArgs)] + ([AskedPolicy(1, haha)] + [RanHook(haha, 1)])
        == [Called(NoArgs), AskedPolicy(1, haha), RanHook(haha, 1)];
  }

  /** test_error_usage, as retry.py writes its message: a policy named by a
      string on a function called without arguments fails before the
      function runs. */
  lemma NamedPolicyWithoutReceiver()
    ensures Wrapped(Named("_retry_policy"), None, [Returned(1)], NoArgs, NoPolicyAttribute, NoHookAttribute)
         == Some(Final(Raised(UsageError("retry_policy", "_retry_policy")), []))
  {
  }

  /** A receiver whose `_policy` attribute is `policy` and which has no other attribute. */
  function PolicyAttributes(policy: Policy): (int, string) -> Outcome<Policy> {
    (receiver: int, name: string) => if name == "_policy" then Returned(policy) else NoPolicyAttribute(receiver, name)
  }

  /** test_simple's FailOnce: the policy is the receiver's `_policy`
      attribute; the first attempt fails, the second returns 1. */
  lemma NamedPolicyOnReceiver(policy: Policy)
    requires policy(1, RuntimeError("fail")) == Returned(Decision(false, 0.0))
    ensures
      var args := Args([7], map[]);
      (Wrapped(Named("_policy"), None, [Raised(RuntimeError("fail")), Returned(1)], args, PolicyAttributes(policy), NoHookAttribute)
         == Some(Final(Returned(1), [Called(args), AskedPolicy(1, RuntimeError("fail")), Called(args)])))
  {
    var fail := RuntimeError("fail");
    var args := Args([7], map[]);
    var fn := [Raised(fail), Returned(1)];
    assert GetMethod(Named("_policy"), args, "retry_policy", PolicyAttributes(policy)) == Returned(policy);
    assert fn[1..] == [Returned(1)];
    assert AfterFailure<Args<int>>(1, fail, policy, None) == Continue([AskedPolicy(1, fail)]);
    assert ([Called(args)] + [AskedPolicy(1, fail)]) + [Called(args)] == [Called(args), AskedPolicy(1, fail), Called(args)];
  }

  /** A call with a keyword `fn`, the name of a parameter of `perform`: both
      references resolve, then Python refuses to bind `perform`'s arguments
      and the operation never runs. The intended decorator passes the keyword
      on and returns the operation's value. */
  lemma KeywordNamedFnNeverRuns()
    ensures var args := Args([], map["fn" := 0]);
            && Wrapped(Direct(NeverAbandon), None, [Returned(1)], args, NoPolicyAttribute, NoHookAttribute)
               == Some(Final(Raised(Error("TypeError", "perform() got multiple values for argument 'fn'", true)), []))
            && WrappedIntended(Direct(NeverAbandon), None, [Returned(1)], args, NoPolicyAttribute, NoHookAttribute)
               == Some(Final(Returned(1), [Called(args)]))
  {
    var args := Args([], map["fn" := 0]);
    assert "fn" in args.keywords && "fails" !in args.keywords;
    ClashNamesParameter(args);
    assert ClashError("fn") == Error("TypeError", "perform() got multiple values for argument 'fn'", true);
  }

  /** A policy that raises StopIteration, as `next()` on an exhausted
      iterator does. */
  function StopsIterating(fails: int, e: Error): Outcome<Decision> {
    Raised(Error("StopIteration", "", true))
  }

  /** The StopIteration that policy raises leaves the coroutine `perform` as
      the RuntimeError Python puts in its place, after one attempt. */
  lemma PolicyStopIterationArrivesAsRuntimeError()
    ensures var fail := RuntimeError("fail");
            Wrapped(Direct(StopsIterating), None, [Raised(fail), Returned(1)], NoArgs, NoPolicyAttribute, NoHookAttribute)
            == Some(Final(Raised(RuntimeError("coroutine raised StopIteration")), [Called(NoArgs), AskedPolicy(1, fail)]))
  {
    var fail := RuntimeError("fail");
    assert [Called(NoArgs)] + [AskedPolicy(1, fail)] == [Called(NoArgs), AskedPolicy(1, fail)];
  }
}
