/** The decorator `retry(retry_policy, before_retry)` of aioretry/retry.py.
    `retry(p, h)` returns `wrapper`, `wrapper(fn)` returns `wrapped`, and a
    call `wrapped(*args, **kwargs)` resolves the policy and the hook against
    its own arguments and then calls `perform` with the counter at 0. The
    three curried layers are one function of all their parameters here. */
module RetryDecorator {
  import opened RetryTypes
  import opened RetryLoop
  import opened MethodResolution
  import opened RetryProperties

  /** The hook `wrapped` passes on: None stays None, anything else is
      resolved with role "before_retry". */
  function ResolveHook<R>(beforeRetry: Option<Ref<Hook>>, args: Args<R>, getattr: (R, string) -> Outcome<Hook>)
    : Outcome<Option<Hook>>
  {
    if beforeRetry.None? then Returned(None)
    else match GetMethod(beforeRetry.value, args, "before_retry", getattr)
      case Returned(h) => Returned(Some(h))
      case Raised(x) => Raised(x)
  }

  /** The parameters `perform` binds before `*args, **kwargs`, in order. */
  const PerformParameters: seq<string> := ["fails", "fn", "retry_policy", "before_retry"]

  /** The first of `names` that is also a keyword of the call, if any. */
  function FirstKeyword<R>(names: seq<string>, keywords: map<string, R>): (r: Option<string>)
    ensures r.Some? <==> exists i :: 0 <= i < |names| && names[i] in keywords
    ensures r.Some? ==> r.value in names && r.value in keywords
    decreases |names|
  {
    if names == [] then None
    else if names[0] in keywords then Some(names[0])
    else FirstKeyword(names[1..], keywords)
  }

  /** A keyword of the call that `perform` would also receive positionally. */
  function Clash<R>(args: Args<R>): Option<string>
  {
    FirstKeyword(PerformParameters, args.keywords)
  }

  /** The TypeError Python raises when a call gives parameter `name` twice. */
  function ClashError(name: string): Error
  {
    Error("TypeError", "perform() got multiple values for argument '" + name + "'", true)
  }

  /** One call `wrapped(*args, **kwargs)` of `retry(retryPolicy, beforeRetry)(fn)`;
      `policyAttribute` and `hookAttribute` stand for `getattr` on the
      receiver. None when `fn`'s outcomes run out before the loop ends.
      `wrapped` is itself an `async def`, so a resolution error leaves it
      through `LeaveCoroutine`; `perform`'s own result has already done so.
      Both references are resolved before Python binds the arguments of
      `perform`, which fails when a keyword of the call is one of
      `perform`'s own parameters. */
  function Wrapped<R, V>(retryPolicy: Ref<Policy>, beforeRetry: Option<Ref<Hook>>, fn: seq<Outcome<V>>, args: Args<R>,
                         policyAttribute: (R, string) -> Outcome<Policy>, hookAttribute: (R, string) -> Outcome<Hook>)
    : Option<Final<Args<R>, V>>
  {
    match GetMethod(retryPolicy, args, "retry_policy", policyAttribute)
    case Raised(x) => Some(Final(LeaveCoroutine(Raised(x)), []))
    case Returned(policy) =>
      match ResolveHook(beforeRetry, args, hookAttribute)
      case Raised(x) => Some(Final(LeaveCoroutine(Raised(x)), []))
      case Returned(hook) =>
        match Clash(args)
        case Some(name) => Some(Final(Raised(ClashError(name)), []))
        case None => PerformCall(0, fn, policy, hook, args)
  }

  /** `Wrapped` as it is evidently meant to behave: every keyword of the call
      reaches the operation, whatever its name. */
  function WrappedIntended<R, V>(retryPolicy: Ref<Policy>, beforeRetry: Option<Ref<Hook>>, fn: seq<Outcome<V>>,
                                 args: Args<R>, policyAttribute: (R, string) -> Outcome<Policy>,
                                 hookAttribute: (R, string) -> Outcome<Hook>)
    : Option<Final<Args<R>, V>>
  {
    match GetMethod(retryPolicy, args, "retry_policy", policyAttribute)
    case Raised(x) => Some(Final(LeaveCoroutine(Raised(x)), []))
    case Returned(policy) =>
      match ResolveHook(beforeRetry, args, hookAttribute)
      case Raised(x) => Some(Final(LeaveCoroutine(Raised(x)), []))
      case Returned(hook) => PerformCall(0, fn, policy, hook, args)
  }

  /** Resolution comes first: when the policy, or else the hook, cannot be
      resolved, that error is raised and `fn` never runs; once both resolve,
      a keyword that clashes with a parameter of `perform` raises the
      TypeError, and `fn` does not run either. Conversely a call that does
      not run `fn` at all is exactly one of these three. */
  lemma ResolutionBeforeAnyAttempt<R, V>(retryPolicy: Ref<Policy>, beforeRetry: Option<Ref<Hook>>, fn: seq<Outcome<V>>,
                                         args: Args<R>, policyAttribute: (R, string) -> Outcome<Policy>,
                                         hookAttribute: (R, string) -> Outcome<Hook>)
    requires Wrapped(retryPolicy, beforeRetry, fn, args, policyAttribute, hookAttribute).Some?
    ensures var w := Wrapped(retryPolicy, beforeRetry, fn, args, policyAttribute, hookAttribute).value;
            var p := GetMethod(retryPolicy, args, "retry_policy", policyAttribute);
            var h := ResolveHook(beforeRetry, args, hookAttribute);
            var c := Clash(args);
            && (p.Raised? ==> w == Final(LeaveCoroutine(Raised(p.error)), []))
            && (p.Returned? && h.Raised? ==> w == Final(LeaveCoroutine(Raised(h.error)), []))
            && (p.Returned? && h.Returned? && c.Some? ==> w == Final(Raised(ClashError(c.value)), []))
            && (Attempts(w.trace) == 0 <==> p.Raised? || h.Raised? || c.Some?)
  {
    var p := GetMethod(retryPolicy, args, "retry_policy", policyAttribute);
    var h := ResolveHook(beforeRetry, args, hookAttribute);
    if p.Returned? && h.Returned? && Clash(args).None? {
      RunTrace(0, fn, p.value, h.value, args);
    }
  }

  /** A keyword clashes exactly when the call names one of `fails`, `fn`,
      `retry_policy` and `before_retry`; the name reported is the first of
      them, in `perform`'s parameter order, that the call gives. */
  lemma ClashNamesParameter<R>(args: Args<R>)
    ensures Clash(args).Some? <==> "fails" in args.keywords || "fn" in args.keywords
                                   || "retry_policy" in args.keywords || "before_retry" in args.keywords
    ensures Clash(args).Some? ==> Clash(args).value in args.keywords
    ensures "fails" in args.keywords ==> Clash(args) == Some("fails")
    ensures "fails" !in args.keywords && "fn" in args.keywords ==> Clash(args) == Some("fn")
    ensures "fails" !in args.keywords && "fn" !in args.keywords && "retry_policy" in args.keywords
            ==> Clash(args) == Some("retry_policy")
    ensures ("fails" !in args.keywords && "fn" !in args.keywords && "retry_policy" !in args.keywords
             && "before_retry" in args.keywords) ==> Clash(args) == Some("before_retry")
  {
    assert PerformParameters[0] == "fails" && PerformParameters[1] == "fn";
    assert PerformParameters[2] == "retry_policy" && PerformParameters[3] == "before_retry";
  }

  /** Once both resolve and no keyword clashes, the call is `perform` started
      with the counter at 0, the resolved policy, and the resolved hook (None
      when none was given). */
  lemma WrappedStartsAtZero<R, V>(retryPolicy: Ref<Policy>, beforeRetry: Option<Ref<Hook>>, fn: seq<Outcome<V>>,
                                  args: Args<R>, policyAttribute: (R, string) -> Outcome<Policy>,
                                  hookAttribute: (R, string) -> Outcome<Hook>)
    requires GetMethod(retryPolicy, args, "retry_policy", policyAttribute).Returned?
    requires ResolveHook(beforeRetry, args, hookAttribute).Returned?
    requires Clash(args).None?
    ensures var policy := GetMethod(retryPolicy, args, "retry_policy", policyAttribute).value;
            var hook := ResolveHook(beforeRetry, args, hookAttribute).value;
            && (beforeRetry.None? <==> hook.None?)
            && Wrapped(retryPolicy, beforeRetry, fn, args, policyAttribute, hookAttribute)
               == PerformCall(0, fn, policy, hook, args)
  {
  }

  /** The intended decorator passes every call on to `perform`, whatever its
      keywords: once both references resolve, there is at least one attempt,
      each with the call's own arguments. It agrees with `Wrapped` on every
      call whose keywords do not clash, and differs from it on every finished
      call whose keywords do. */
  lemma IntendedPassesEveryKeyword<R, V>(retryPolicy: Ref<Policy>, beforeRetry: Option<Ref<Hook>>, fn: seq<Outcome<V>>,
                                         args: Args<R>, policyAttribute: (R, string) -> Outcome<Policy>,
                                         hookAttribute: (R, string) -> Outcome<Hook>)
    requires GetMethod(retryPolicy, args, "retry_policy", policyAttribute).Returned?
    requires ResolveHook(beforeRetry, args, hookAttribute).Returned?
    ensures var policy := GetMethod(retryPolicy, args, "retry_policy", policyAttribute).value;
            var hook := ResolveHook(beforeRetry, args, hookAttribute).value;
            WrappedIntended(retryPolicy, beforeRetry, fn, args, policyAttribute, hookAttribute)
            == PerformCall(0, fn, policy, hook, args)
    ensures var i := WrappedIntended(retryPolicy, beforeRetry, fn, args, policyAttribute, hookAttribute);
            i.Some? ==> Attempts(i.value.trace) >= 1 && CallsWith(i.value.trace, args)
    ensures var i := WrappedIntended(retryPolicy, beforeRetry, fn, args, policyAttribute, hookAttribute);
            var w := Wrapped(retryPolicy, beforeRetry, fn, args, policyAttribute, hookAttribute);
            && (Clash(args).None? ==> w == i)
            && (Clash(args).Some? && i.Some? ==> w != i)
  {
    var policy := GetMethod(retryPolicy, args, "retry_policy", policyAttribute).value;
    var hook := ResolveHook(beforeRetry, args, hookAttribute).value;
    if Run(0, fn, policy, hook, args).Some? {
      RunTrace(0, fn, policy, hook, args);
    }
  }

  /** Seen from the caller of the decorated function, the policy is consulted
      with 1, 2, 3, … on successive failures, the hook with the same count,
      and every attempt gets the call's own arguments. */
  lemma {:induction false} WrappedCountsFromOne<R, V>(retryPolicy: Ref<Policy>, beforeRetry: Option<Ref<Hook>>,
                                                      fn: seq<Outcome<V>>, args: Args<R>,
                                                      policyAttribute: (R, string) -> Outcome<Policy>,
                                                      hookAttribute: (R, string) -> Outcome<Hook>)
    requires Wrapped(retryPolicy, beforeRetry, fn, args, policyAttribute, hookAttribute).Some?
    ensures var t := Wrapped(retryPolicy, beforeRetry, fn, args, policyAttribute, hookAttribute).value.trace;
            CountsFrom(AskedFails(t), 1) && HookFollowsPolicy(t) && CallsWith(t, args)
  {
    var p := GetMethod(retryPolicy, args, "retry_policy", policyAttribute);
    var h := ResolveHook(beforeRetry, args, hookAttribute);
    if p.Returned? && h.Returned? && Clash(args).None? {
      RunTrace(0, fn, p.value, h.value, args);
    }
  }
}
