/** RetryPolicyProvider: one bounded retry policy per kind of dependency, a classifier of
    the exceptions worth retrying, and the attempt loop ExecuteAsync.

    The action is given as the outcome of each attempt (attempt k, counted from 1, either
    returns a value or raises an exception). The cancellation token is given as the first
    moment at which cancellation is requested, if any; each attempt k has three moments
    at which the loop looks at the token, in this order: the ThrowIfCancellationRequested
    that opens the iteration, the ShouldRetry of its catch filter, and the Task.Delay that
    follows a retryable failure. Once requested, cancellation stays requested. */
module Retry {
  import opened Wrappers

  datatype PolicyKind = SdmxHttp | OutboundHttpPost | NotificationHttpPost | DatabaseConnection | RabbitMqConnection

  /** RetryPolicy(MaxAttempts, Delays), the delays in milliseconds. */
  datatype RetryPolicy = RetryPolicy(maxAttempts: int, delays: seq<nat>)

  /** What RetryPolicy.Create accepts: at least one attempt and one delay per retry. */
  predicate ValidPolicy(p: RetryPolicy) {
    p.maxAttempts >= 1 && |p.delays| == p.maxAttempts - 1
  }

  type Policy = p: RetryPolicy | ValidPolicy(p) witness RetryPolicy(1, [])

  /** RetryPolicy.Create: ArgumentOutOfRangeException for fewer than one attempt,
      ArgumentException when the delays are not Math.Max(0, maxAttempts - 1). */
  function CreatePolicy(maxAttempts: int, delays: seq<nat>): (r: Result<RetryPolicy, Exn>)
    ensures r.Ok? <==> ValidPolicy(RetryPolicy(maxAttempts, delays))
    ensures r.Ok? ==> r.value == RetryPolicy(maxAttempts, delays)
    ensures r.Err? ==> r.error == (if maxAttempts < 1 then ArgumentOutOfRange else Argument)
  {
    if maxAttempts < 1 then Err(ArgumentOutOfRange)
    else if |delays| != Max0(maxAttempts - 1) then Err(Argument)
    else Ok(RetryPolicy(maxAttempts, delays))
  }

  function Max0(x: int): int {
    if x < 0 then 0 else x
  }

  /** The policy table of the provider, each entry built by RetryPolicy.Create. */
  function PolicyTable(kind: PolicyKind): Result<RetryPolicy, Exn> {
    match kind
    case SdmxHttp => CreatePolicy(3, [500, 1000])
    case OutboundHttpPost => CreatePolicy(3, [500, 1000])
    case NotificationHttpPost => CreatePolicy(3, [500, 1000])
    case DatabaseConnection => CreatePolicy(3, [200, 500])
    case RabbitMqConnection => CreatePolicy(5, [500, 1000, 2000, 4000])
  }

  /** _policies[kind]: every entry of the table is built without an exception. */
  function PolicyFor(kind: PolicyKind): (p: Policy)
    ensures PolicyTable(kind) == Ok(p)
    ensures p.maxAttempts == if kind == RabbitMqConnection then 5 else 3
  {
    PolicyTable(kind).value
  }

  /** IsTransientHttp: TransientFailureException, HttpRequestException, TimeoutException. */
  predicate IsTransientHttp(e: Exn) {
    e == TransientFailure || e == HttpRequest || e == Timeout
  }

  /** IsTransientDatabase: also NpgsqlException and SocketException. */
  predicate IsTransientDatabase(e: Exn) {
    e == TransientFailure || e == Npgsql || e == Timeout || e == Socket
  }

  /** IsTransientRabbit: BrokerUnreachableException and SocketException, not timeouts. */
  predicate IsTransientRabbit(e: Exn) {
    e == TransientFailure || e == BrokerUnreachable || e == Socket
  }

  /** ShouldRetry: never once cancellation is requested; otherwise the classifier of the
      policy's kind. */
  predicate ShouldRetry(kind: PolicyKind, e: Exn, cancelled: bool) {
    !cancelled &&
    match kind
    case SdmxHttp | OutboundHttpPost | NotificationHttpPost => IsTransientHttp(e)
    case DatabaseConnection => IsTransientDatabase(e)
    case RabbitMqConnection => IsTransientRabbit(e)
  }

  /** The classification table, kind by kind. */
  lemma ClassificationTable(e: Exn)
    ensures ShouldRetry(SdmxHttp, e, false) <==> e in {TransientFailure, HttpRequest, Timeout}
    ensures ShouldRetry(DatabaseConnection, e, false) <==> e in {TransientFailure, Npgsql, Timeout, Socket}
    ensures ShouldRetry(RabbitMqConnection, e, false) <==> e in {TransientFailure, BrokerUnreachable, Socket}
    ensures !ShouldRetry(RabbitMqConnection, Timeout, false)
    ensures !ShouldRetry(SdmxHttp, OperationCanceled, false)
    ensures forall kind :: !ShouldRetry(kind, e, true)
  {
  }

  // ---------------------------------------------------------------- the attempt loop

  function StartMoment(k: nat): nat { 3 * k }
  function FilterMoment(k: nat): nat { 3 * k + 1 }
  function DelayMoment(k: nat): nat { 3 * k + 2 }

  predicate Cancelled(cancelAt: Option<nat>, moment: nat) {
    cancelAt.Some? && cancelAt.value <= moment
  }

  /** How a run ends: what ExecuteAsync returns or raises, the number of attempts made,
      and the delays waited (the last one possibly interrupted by cancellation). */
  datatype Outcome<T> = Outcome(result: Result<T, Exn>, attempts: nat, waits: seq<nat>)

  function Sum(s: seq<nat>): nat {
    if s == [] then 0 else Sum(s[..|s| - 1]) + s[|s| - 1]
  }

  /** The run of ExecuteAsync after `done` attempts have failed and been retried. */
  function Run<T>(p: Policy, kind: PolicyKind, action: nat -> Result<T, Exn>, cancelAt: Option<nat>, done: nat): (o: Outcome<T>)
    requires done < p.maxAttempts
    decreases p.maxAttempts - done
  {
    var k := done + 1;
    if Cancelled(cancelAt, StartMoment(k)) then Outcome(Err(OperationCanceled), done, [])
    else match action(k)
      case Ok(v) => Outcome(Ok(v), k, [])
      case Err(e) =>
        if ShouldRetry(kind, e, Cancelled(cancelAt, FilterMoment(k))) && k < p.maxAttempts then
          var d := p.delays[k - 1];
          if Cancelled(cancelAt, DelayMoment(k)) then Outcome(Err(OperationCanceled), k, [d])
          else
            var rest := Run(p, kind, action, cancelAt, k);
            Outcome(rest.result, rest.attempts, [d] + rest.waits)
        else Outcome(Err(e), k, [])
  }

  /** Every run stays within the attempts of the policy, waits the delays of the table in
      order, one per retry, returns only what an attempt returned, and starts no attempt
      once cancellation is requested. */
  lemma {:induction false} RunShape<T>(p: Policy, kind: PolicyKind, action: nat -> Result<T, Exn>, cancelAt: Option<nat>, done: nat)
    requires done < p.maxAttempts
    ensures var o := Run(p, kind, action, cancelAt, done);
      && done <= o.attempts <= p.maxAttempts
      && done + |o.waits| <= o.attempts && done + |o.waits| < p.maxAttempts
      && o.waits == p.delays[done..done + |o.waits|]
      && (o.result.Ok? ==> o.attempts > done && o.result == action(o.attempts))
      && (o.attempts > done ==> !Cancelled(cancelAt, StartMoment(o.attempts)))
    decreases p.maxAttempts - done
  {
    var k := done + 1;
    if !Cancelled(cancelAt, StartMoment(k)) && action(k).Err?
      && ShouldRetry(kind, action(k).error, Cancelled(cancelAt, FilterMoment(k))) && k < p.maxAttempts
      && !Cancelled(cancelAt, DelayMoment(k))
    {
      RunShape(p, kind, action, cancelAt, k);
      var rest := Run(p, kind, action, cancelAt, k);
      assert Run(p, kind, action, cancelAt, done) == PrependWaits([p.delays[done]], rest);
      SliceCons(p.delays, done, |rest.waits|);
    }
  }

  lemma SliceCons(s: seq<nat>, i: nat, n: nat)
    requires i + 1 + n <= |s|
    ensures s[i..i + 1 + n] == [s[i]] + s[i + 1..i + 1 + n]
  {
  }

  function PrependWaits<T>(w: seq<nat>, o: Outcome<T>): Outcome<T> {
    Outcome(o.result, o.attempts, w + o.waits)
  }

  lemma PrependTwice<T>(w1: seq<nat>, w2: seq<nat>, o: Outcome<T>)
    ensures PrependWaits(w1, PrependWaits(w2, o)) == PrependWaits(w1 + w2, o)
  {
    assert w1 + (w2 + o.waits) == (w1 + w2) + o.waits;
  }

  /** ExecuteAsync<T>: runs the action until it returns, raises an exception the policy
      does not retry, exhausts the attempts, or is cancelled. */
  method ExecuteAsync<T>(kind: PolicyKind, action: nat -> Result<T, Exn>, cancelAt: Option<nat>)
    returns (o: Outcome<T>)
    ensures o == Run(PolicyFor(kind), kind, action, cancelAt, 0)
  {
    var policy := PolicyFor(kind);
    var attempt := 0;
    var waits := [];
    while true
      invariant 0 <= attempt < policy.maxAttempts
      invariant Run(policy, kind, action, cancelAt, 0) == PrependWaits(waits, Run(policy, kind, action, cancelAt, attempt))
      decreases policy.maxAttempts - attempt
    {
      ghost var before := attempt;
      ghost var run := Run(policy, kind, action, cancelAt, before);
      if Cancelled(cancelAt, StartMoment(attempt + 1)) {
        assert run == Outcome(Err(OperationCanceled), attempt, []);
        return Outcome(Err(OperationCanceled), attempt, waits);
      }
      attempt := attempt + 1;
      var outcome := action(attempt);
      if outcome.Ok? {
        assert run == Outcome(outcome, attempt, []);
        return Outcome(outcome, attempt, waits);
      }
      var e := outcome.error;
      if !(ShouldRetry(kind, e, Cancelled(cancelAt, FilterMoment(attempt))) && attempt < policy.maxAttempts) {
        assert run == Outcome(Err(e), attempt, []);
        return Outcome(Err(e), attempt, waits);
      }
      var delay := policy.delays[attempt - 1];
      if Cancelled(cancelAt, DelayMoment(attempt)) {
        assert run == Outcome(Err(OperationCanceled), attempt, [delay]);
        return Outcome(Err(OperationCanceled), attempt, waits + [delay]);
      }
      assert run == PrependWaits([delay], Run(policy, kind, action, cancelAt, attempt));
      PrependTwice(waits, [delay], Run(policy, kind, action, cancelAt, attempt));
      waits := waits + [delay];
    }
  }

  /** The action of the void overload: completing counts as returning null. */
  function VoidAction(action: nat -> Option<Exn>): nat -> Result<(), Exn> {
    (k: nat) => if action(k).Some? then Err(action(k).value) else Ok(())
  }

  /** ExecuteAsync without a result delegates to the generic loop. */
  method ExecuteVoidAsync(kind: PolicyKind, action: nat -> Option<Exn>, cancelAt: Option<nat>)
    returns (o: Outcome<()>)
    ensures o == Run(PolicyFor(kind), kind, VoidAction(action), cancelAt, 0)
    ensures o.result.Ok? ==> o.attempts >= 1 && action(o.attempts).None?
  {
    o := ExecuteAsync(kind, VoidAction(action), cancelAt);
    RunShape(PolicyFor(kind), kind, VoidAction(action), cancelAt, 0);
  }

  // ---------------------------------------------------------------- properties

  /** The action runs at most MaxAttempts times; the waits are the first delays of the
      table in order, so their total is bounded by the sum of the table. */
  lemma RunBounds<T>(kind: PolicyKind, action: nat -> Result<T, Exn>, cancelAt: Option<nat>)
    ensures var p, o := PolicyFor(kind), Run(PolicyFor(kind), kind, action, cancelAt, 0);
      && o.attempts <= p.maxAttempts
      && |o.waits| <= p.maxAttempts - 1
      && o.waits == p.delays[..|o.waits|]
      && Sum(o.waits) <= Sum(p.delays)
  {
    var p, o := PolicyFor(kind), Run(PolicyFor(kind), kind, action, cancelAt, 0);
    RunShape(p, kind, action, cancelAt, 0);
    SumPrefix(p.delays, |o.waits|);
  }

  lemma {:induction false} SumPrefix(s: seq<nat>, n: nat)
    requires n <= |s|
    ensures Sum(s[..n]) <= Sum(s)
    decreases |s|
  {
    if n < |s| {
      assert s[..|s| - 1][..n] == s[..n];
      SumPrefix(s[..|s| - 1], n);
    } else {
      assert s[..n] == s;
    }
  }

  /** An attempt that raises an exception the policy does not retry ends the run with
      that exception, with no delay after it and no further attempt. */
  lemma {:induction false} NonRetryablePropagates<T>(p: Policy, kind: PolicyKind, action: nat -> Result<T, Exn>, done: nat, n: nat)
    requires done < n <= p.maxAttempts
    requires forall k | done < k < n :: action(k).Err? && ShouldRetry(kind, action(k).error, false)
    requires action(n).Err? && !ShouldRetry(kind, action(n).error, false)
    ensures Run(p, kind, action, None, done) == Outcome(Err(action(n).error), n, p.delays[done..n - 1])
    decreases n - done
  {
    if done + 1 < n {
      NonRetryablePropagates(p, kind, action, done + 1, n);
      assert p.delays[done..n - 1] == [p.delays[done]] + p.delays[done + 1..n - 1];
    }
  }

  /** When every attempt raises a retryable exception, the action runs exactly
      MaxAttempts times, every delay of the table is waited, and the last exception
      propagates. */
  lemma {:induction false} ExhaustionPropagates<T>(p: Policy, kind: PolicyKind, action: nat -> Result<T, Exn>, done: nat)
    requires done < p.maxAttempts
    requires forall k | done < k <= p.maxAttempts :: action(k).Err? && ShouldRetry(kind, action(k).error, false)
    ensures Run(p, kind, action, None, done) == Outcome(Err(action(p.maxAttempts).error), p.maxAttempts, p.delays[done..])
    decreases p.maxAttempts - done
  {
    if done + 1 < p.maxAttempts {
      ExhaustionPropagates(p, kind, action, done + 1);
      assert p.delays[done..] == [p.delays[done]] + p.delays[done + 1..];
    }
  }

  /** A success returns the action's value unchanged, after failed attempts only. */
  lemma {:induction false} SuccessReturnsValue<T>(p: Policy, kind: PolicyKind, action: nat -> Result<T, Exn>, cancelAt: Option<nat>, done: nat)
    requires done < p.maxAttempts
    ensures var o := Run(p, kind, action, cancelAt, done);
      o.result.Ok? ==> o.result == action(o.attempts) && forall k | done < k < o.attempts :: action(k).Err?
    decreases p.maxAttempts - done
  {
    var k := done + 1;
    RunShape(p, kind, action, cancelAt, done);
    if !Cancelled(cancelAt, StartMoment(k)) && action(k).Err? && k < p.maxAttempts {
      SuccessReturnsValue(p, kind, action, cancelAt, k);
    }
  }

  /** Cancellation requested before the filter of attempt k stops the retrying: no attempt
      after k is made. */
  lemma {:induction false} CancellationStopsRetrying<T>(p: Policy, kind: PolicyKind, action: nat -> Result<T, Exn>, cancelAt: Option<nat>, done: nat, k: nat)
    requires done < p.maxAttempts && done < k
    requires Cancelled(cancelAt, FilterMoment(k))
    ensures Run(p, kind, action, cancelAt, done).attempts <= k
    decreases p.maxAttempts - done
  {
    var j := done + 1;
    if !Cancelled(cancelAt, StartMoment(j)) && action(j).Err? && j < k && j < p.maxAttempts {
      CancellationStopsRetrying(p, kind, action, cancelAt, j, k);
    }
  }

  /** Without cancellation the run ends with what its last attempt returned or raised:
      a success, or the exception rethrown to the caller. */
  lemma {:induction false} UncancelledEndsWithLastAttempt<T>(p: Policy, kind: PolicyKind, action: nat -> Result<T, Exn>, done: nat)
    requires done < p.maxAttempts
    ensures var o := Run(p, kind, action, None, done);
      done < o.attempts <= p.maxAttempts && o.result == action(o.attempts)
    decreases p.maxAttempts - done
  {
    var k := done + 1;
    if action(k).Err? && ShouldRetry(kind, action(k).error, false) && k < p.maxAttempts {
      UncancelledEndsWithLastAttempt(p, kind, action, k);
    }
  }

  /** The HTTP policies wait 500 ms and then 1 s: a run that keeps failing transiently
      makes three attempts and raises the last failure. */
  lemma HttpExhaustion<T>(kind: PolicyKind, action: nat -> Result<T, Exn>)
    requires kind == SdmxHttp || kind == OutboundHttpPost || kind == NotificationHttpPost
    requires forall k | 1 <= k <= 3 :: action(k).Err? && IsTransientHttp(action(k).error)
    ensures Run(PolicyFor(kind), kind, action, None, 0) == Outcome(Err(action(3).error), 3, [500, 1000])
  {
    ExhaustionPropagates(PolicyFor(kind), kind, action, 0);
  }
}
