/** `get_method` of aioretry/retry.py: a retry policy or a hook is given to
    the decorator either as a callable or as the name of a method of the
    decorated function's receiver, its first positional argument.

    Attribute lookup on the receiver (Python's `getattr`, with its
    bound-method and descriptor rules) is not part of this model: it is the
    parameter `getattr`, which yields the attribute or the exception the
    lookup raises (an AttributeError for a missing name). */
module MethodResolution {
  import opened RetryTypes

  /** A policy or hook reference: the callable itself, or a method name. */
  datatype Ref<+T> = Direct(callable: T) | Named(attribute: string)

  /** The arguments of one call of the decorated function. */
  datatype Args<+R> = Args(positional: seq<R>, keywords: map<string, R>)

  /** The configuration error of a name given where there is no receiver;
      `role` is the decorator parameter the name was given for. */
  function UsageError(role: string, target: string): Error
  {
    Error("RuntimeError",
          "[aioretry] decorator should be used for instance method if " + role + " as a str `\"" + target + "\"` ",
          true)
  }

  /** The configuration error is a RuntimeError whose message names the role
      and quotes the name that could not be resolved. */
  lemma UsageErrorNamesRoleAndTarget(role: string, target: string)
    ensures UsageError(role, target).className == "RuntimeError" && UsageError(role, target).isException
    ensures Contains(UsageError(role, target).text, role)
    ensures Contains(UsageError(role, target).text, "`\"" + target + "\"`")
  {
    var before := "[aioretry] decorator should be used for instance method if ";
    var middle := " as a str ";
    var quoted := "`\"" + target + "\"`";
    var text := UsageError(role, target).text;
    assert text == before + role + middle + quoted + " ";
    assert text[|before|..|before| + |role|] == role;
    assert text[|before + role + middle|..|before + role + middle| + |quoted|] == quoted;
  }

  /** The message of the error for a policy named `_retry_policy` on a
      call without arguments, character for character. */
  lemma UsageMessage()
    ensures UsageError("retry_policy", "_retry_policy").text
         == "[aioretry] decorator should be used for instance method if retry_policy as a str `\"_retry_policy\"` "
  {
    var head := "[aioretry] decorator should be used for instance method if retry_policy";
    var tail := " as a str `\"_retry_policy\"` ";
    UsageMessageHalves(head, tail);
    assert "[aioretry] decorator should be used for instance method if " + "retry_policy" == head;
    assert " as a str `\"" + "_retry_policy" + "\"` " == tail;
  }

  /** The two halves of that message, joined. */
  lemma UsageMessageHalves(head: string, tail: string)
    requires head == "[aioretry] decorator should be used for instance method if retry_policy"
    requires tail == " as a str `\"_retry_policy\"` "
    ensures head + tail
         == "[aioretry] decorator should be used for instance method if retry_policy as a str `\"_retry_policy\"` "
  {
  }

  /** `sub` occurs in `s`. */
  predicate Contains(s: string, sub: string)
  {
    exists i, j :: 0 <= i <= j <= |s| && s[i..j] == sub
  }

  /** `get_method(target, args, name)`: a callable comes back as it is; a
      name with no positional argument is a configuration error naming the
      role and the name; otherwise the name is looked up on the first
      positional argument. */
  function GetMethod<R, T>(target: Ref<T>, args: Args<R>, role: string, getattr: (R, string) -> Outcome<T>)
    : (r: Outcome<T>)
    ensures target.Direct? ==> r == Returned(target.callable)
    ensures r.Raised? <==>
              target.Named? && (args.positional == [] || getattr(args.positional[0], target.attribute).Raised?)
    ensures target.Named? && args.positional == [] ==> r == Raised(UsageError(role, target.attribute))
    ensures target.Named? && args.positional != [] ==> r == getattr(args.positional[0], target.attribute)
  {
    match target
    case Direct(callable) => Returned(callable)
    case Named(attribute) =>
      if |args.positional| == 0 then Raised(UsageError(role, attribute))
      else getattr(args.positional[0], attribute)
  }

  /** The two calls have no receiver, or the same one. */
  ghost predicate SameReceiver<R>(a: Args<R>, b: Args<R>)
  {
    if a.positional == [] then b.positional == []
    else b.positional != [] && a.positional[0] == b.positional[0]
  }

  /** Resolution reads nothing but the receiver: keyword arguments and the
      positional arguments after the first never change it, and a callable
      target does not depend on the arguments at all. */
  lemma ResolutionReadsOnlyReceiver<R, T>(target: Ref<T>, a: Args<R>, b: Args<R>, role: string,
                                             getattr: (R, string) -> Outcome<T>)
    requires target.Direct? || SameReceiver(a, b)
    ensures GetMethod(target, a, role, getattr) == GetMethod(target, b, role, getattr)
  {
  }

  /** A name given with the receiver passed as a keyword argument is still a
      configuration error: only positional arguments are looked at. */
  lemma KeywordReceiverIsNotUsed<R, T>(attribute: string, receiver: R, key: string, role: string,
                                       getattr: (R, string) -> Outcome<T>)
    ensures GetMethod(Named(attribute), Args([], map[key := receiver]), role, getattr)
         == Raised(UsageError(role, attribute))
  {
  }
}
