/** The retry loop: how often it calls, how long it sleeps, and what it returns. */
module Retry {
  import opened Text

  /** How one call ends: well, with an error, or with an error that stops the loop. */
  datatype Attempt = Success | Failure(error: nat) | Stop(inner: Option<nat>)

  datatype Config = Config(maxAttempts: int, baseBackoff: int)

  /** What `Do` returns: nil, an error of a call, or that the context is done. */
  datatype Result = Nil | Error(error: nat) | ContextDone

  /** A context that is done at its n-th check and from then on, or never. */
  datatype Context = Live | DoneAt(check: nat) {
    predicate Done(check_: nat) {
      DoneAt? && check <= check_
    }
  }

  /** Zero or less means one. */
  function Attempts(config: Config): int {
    if config.maxAttempts <= 0 then 1 else config.maxAttempts
  }

  /** In milliseconds; zero or less means 100. */
  function Backoff(config: Config): int {
    if config.baseBackoff <= 0 then 100 else config.baseBackoff
  }

  /** The call that ends the loop by itself, counted from one; none among the first n. */
  function FirstEnd(calls: nat -> Attempt, n: nat): (k: nat)
    ensures k <= n
    ensures k < n ==> !calls(k).Failure?
    ensures forall i: nat :: i < k ==> calls(i).Failure?
  {
    if n == 0 then 0
    else
      var k := FirstEnd(calls, n - 1);
      if k < n - 1 then k else if calls(n - 1).Failure? then n else n - 1
  }

  /** The calls of a loop whose context stays live: up to and including the first that does not fail,
      and no more than the limit. */
  function CallCount(config: Config, calls: nat -> Attempt): (k: int)
    ensures 1 <= k <= Attempts(config)
  {
    var n := FirstEnd(calls, Attempts(config));
    if n < Attempts(config) then n + 1 else n
  }

  /** The sum of the sleeps after each of the first calls. */
  function SleepSum(base: int, calls: nat): int {
    if calls == 0 then 0 else SleepSum(base, calls - 1) + base * calls
  }

  /** Sleeping base, 2 base, 3 base and so on adds up to a quadratic. */
  lemma {:induction false} SleepIsQuadratic(base: int, calls: nat)
    ensures 2 * SleepSum(base, calls) == base * (calls * (calls + 1))
  {
    if calls > 0 {
      SleepIsQuadratic(base, calls - 1);
      Distribute(base, calls);
    }
  }

  lemma Distribute(base: int, k: int)
    ensures base * ((k - 1) * k) + 2 * (base * k) == base * (k * (k + 1))
  {
    assert base * ((k - 1) * k) + base * (2 * k) == base * ((k - 1) * k + 2 * k);
    assert (k - 1) * k + 2 * k == k * (k + 1);
  }

  /** What a call leaves to return. */
  function ReturnOf(a: Attempt): Result {
    match a
    case Success => Nil
    case Failure(e) => Error(e)
    case Stop(None) => Nil
    case Stop(Some(e)) => Error(e)
  }

  /** `AsStop` writes the stop error through when there is one. */
  method AsStop(a: Attempt, target: array<Option<nat>>) returns (ok: bool)
    requires target.Length == 1
    modifies target
    ensures ok == a.Stop?
    ensures target[0] == if a.Stop? then a.inner else old(target[0])
  {
    if !a.Stop? { return false; }
    target[0] := a.inner;
    ok := true;
  }

  /** The context is looked at before every call and during every sleep, which makes check 2k the one
      before call k: what a context that ends lets through of n calls. */
  function Allowed(context: Context, n: nat): nat {
    if context.Live? || n <= (context.check + 1) / 2 then n else (context.check + 1) / 2
  }

  /** How many sleeps were slept to their end. */
  function FullSleeps(context: Context, n: nat): nat {
    var count := Allowed(context, n);
    if count == 0 || (count < n && context.DoneAt? && context.check % 2 == 0) then count else count - 1
  }

  /** `Do`; `calls` says how each call would end. It calls as often as the calls, the limit and the
      context allow, returns what the last call left unless the context ended the loop, and slept the
      base once, twice and so on. */
  method Do(context: Context, config: Config, calls: nat -> Attempt)
    returns (result: Result, count: nat, slept: int)
    ensures count == Allowed(context, CallCount(config, calls))
    ensures result == if count < CallCount(config, calls) then ContextDone else ReturnOf(calls(count - 1))
    ensures slept == SleepSum(Backoff(config), FullSleeps(context, CallCount(config, calls)))
  {
    var maxAttempts, backoff := config.maxAttempts, config.baseBackoff;
    if maxAttempts <= 0 { maxAttempts := 1; }
    if backoff <= 0 { backoff := 100; }
    result, count, slept := Nil, 0, 0;
    var attempt := 1;
    var stop := new Option<nat>[1](_ => None);
    while attempt <= maxAttempts
      invariant 1 <= attempt <= maxAttempts && count == attempt - 1
      invariant forall i: nat :: i < count ==> calls(i).Failure?
      invariant slept == SleepSum(backoff, count)
      invariant context.Live? || 2 * count <= context.check
      decreases maxAttempts - attempt
    {
      FirstEndIs(calls, Attempts(config), count);
      if context.Done(2 * count) { return ContextDone, count, slept; }
      var outcome := calls(count);
      count := count + 1;
      if outcome.Success? { return Nil, count, slept; }
      var stopped := AsStop(outcome, stop);
      if stopped {
        return (if stop[0].Some? then Error(stop[0].value) else Nil), count, slept;
      }
      result := Error(outcome.error);
      if attempt == maxAttempts { break; }
      if context.Done(2 * count - 1) { return ContextDone, count, slept; }
      slept := slept + backoff * attempt;
      attempt := attempt + 1;
    }
  }

  lemma Quadratic(base: int, calls: nat)
    requires calls > 0
    ensures 2 * SleepSum(base, calls - 1) == base * (calls * (calls - 1))
  {
    SleepIsQuadratic(base, calls - 1);
    assert (calls - 1) * calls == calls * (calls - 1);
  }

  /** The first call that does not fail is the one the loop ends with. */
  lemma FirstEndIs(calls: nat -> Attempt, n: nat, k: nat)
    requires k < n && forall i: nat :: i < k ==> calls(i).Failure?
    ensures !calls(k).Failure? ==> FirstEnd(calls, n) == k
    ensures calls(k).Failure? ==> FirstEnd(calls, n) > k
  {
  }

  /** With a context that stays live the loop calls up to and including the first call that does not
      fail, and at most as often as is configured, once if that is zero or less. */
  lemma LiveCount(config: Config, calls: nat -> Attempt, k: nat)
    requires (k == 0 || k < config.maxAttempts) && (forall i: nat :: i < k ==> calls(i).Failure?)
    ensures !calls(k).Failure? ==> Allowed(Live, CallCount(config, calls)) == k + 1
    ensures calls(k).Failure? && k + 1 >= config.maxAttempts ==> Allowed(Live, CallCount(config, calls)) == k + 1
    ensures calls(k).Failure? && k + 1 < config.maxAttempts ==> Allowed(Live, CallCount(config, calls)) > k + 1
  {
    FirstEndIs(calls, Attempts(config), k);
  }

  /** For k calls it sleeps the configured base, 100 if that is zero or less, times k (k - 1) / 2 in all, and
      it returns nil exactly when the last call succeeded or stopped with nothing inside. */
  lemma LiveLoop(config: Config, calls: nat -> Attempt)
    ensures var k := CallCount(config, calls);
         var slept := SleepSum(Backoff(config), FullSleeps(Live, k));
         && (config.baseBackoff > 0 ==> 2 * slept == config.baseBackoff * (k * (k - 1)))
         && (config.baseBackoff <= 0 ==> 2 * slept == 100 * (k * (k - 1)))
         && (ReturnOf(calls(k - 1)) == Nil <==> calls(k - 1) == Success || calls(k - 1) == Stop(None))
         && forall e ::
              ReturnOf(calls(k - 1)) == Error(e) <==> calls(k - 1) == Failure(e) || calls(k - 1) == Stop(Some(e))
  {
    Quadratic(Backoff(config), CallCount(config, calls));
  }
}
