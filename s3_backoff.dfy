/** The retry loop of S3ArtifactStorageService (ExecuteWithRetryAsync): the upload is
    attempted up to MaxAttempts times, with an exponential backoff between attempts.
    Attempt k of the upload either completes or raises put(k). Cancellation is the first
    moment at which it is requested; failed attempt k has two moments at which the loop
    looks at the token: its catch filter and the Task.Delay that follows it. */
module S3Backoff {
  import opened Wrappers

  /** The Retry part of the settings; a missing value takes the default. */
  datatype RetrySettings = RetrySettings(maxAttempts: Option<int>, backoffSeconds: Option<int>)

  const DefaultMaxAttempts: int := 3
  const DefaultBackoffSeconds: int := 2

  function MaxAttemptsOf(r: RetrySettings): (n: int)
    ensures r.maxAttempts.None? ==> n == 3
  {
    if r.maxAttempts.Some? then r.maxAttempts.value else DefaultMaxAttempts
  }

  function BackoffOf(r: RetrySettings): (n: int)
    ensures r.backoffSeconds.None? ==> n == 2
  {
    if r.backoffSeconds.Some? then r.backoffSeconds.value else DefaultBackoffSeconds
  }

  // ---------------------------------------------------------------- the backoff loop

  function Pow2(n: nat): (p: nat)
    ensures p >= 1
  {
    if n == 0 then 1 else 2 * Pow2(n - 1)
  }

  /** The delay after failed attempt k, in seconds: backoff * 2^(k - 1). */
  function DelaySeconds(backoff: int, k: nat): int
    requires k >= 1
  {
    backoff * Pow2(k - 1)
  }

  /** TimeSpan.FromSeconds then Task.Delay(delay, ct): OverflowException when the ticks
      leave the 64-bit range, ArgumentOutOfRangeException for a negative delay or one
      above 4294967294 ms, and a cancelled delay raises OperationCanceledException. */
  function DelayFailure(seconds: int, cancelled: bool): (r: Option<Exn>)
    ensures r.None? <==> 0 <= seconds && seconds * 1000 <= 4294967294 && !cancelled
  {
    if seconds * 10_000_000 > 0x7FFF_FFFF_FFFF_FFFF || seconds * 10_000_000 < -0x8000_0000_0000_0000 then Some(Overflow)
    else if seconds < 0 || seconds * 1000 > 4294967294 then Some(ArgumentOutOfRange)
    else if cancelled then Some(OperationCanceled)
    else None
  }

  /** The delay after failed attempt k as the double backoffSeconds * Math.Pow(2, k - 1):
      Math.Pow(2, n) is exactly 2^n up to n = 1023 and +Infinity beyond, and a product
      with an integer backoff is exact while finite, so the delay is DelaySeconds(backoff, k)
      except that a zero backoff times +Infinity is NaN, which TimeSpan.FromSeconds refuses
      with ArgumentException. An infinite product is beyond the TimeSpan range, as its
      integer counterpart is. */
  function AttemptDelayFailure(backoff: int, k: nat, cancelled: bool): (r: Option<Exn>)
    requires k >= 1
    ensures backoff == 0 && k - 1 >= 1024 ==> r == Some(Argument)
    ensures !(backoff == 0 && k - 1 >= 1024) ==> r == DelayFailure(DelaySeconds(backoff, k), cancelled)
  {
    if backoff == 0 && k - 1 >= 1024 then Some(Argument)
    else DelayFailure(DelaySeconds(backoff, k), cancelled)
  }

  predicate Cancelled(cancelAt: Option<nat>, moment: nat) {
    cancelAt.Some? && cancelAt.value <= moment
  }

  function FilterMoment(k: nat): nat { 2 * k }
  function DelayMoment(k: nat): nat { 2 * k + 1 }

  /** How an upload ends: returned or raised, the attempts made, and the delays begun in
      seconds (the last one possibly interrupted by cancellation). */
  datatype UploadOutcome = UploadOutcome(result: Result<(), Exn>, attempts: nat, waits: seq<int>)

  /** The for loop of ExecuteWithRetryAsync after `done` attempts have failed and been
      waited for. */
  function UploadRun(maxAttempts: int, backoff: int, put: nat -> Option<Exn>, cancelAt: Option<nat>, done: nat): UploadOutcome
    decreases if done < maxAttempts then maxAttempts - done else 0
  {
    var k := done + 1;
    if k > maxAttempts then UploadOutcome(Ok(()), done, [])
    else match put(k)
      case None => UploadOutcome(Ok(()), k, [])
      case Some(e) =>
        if k < maxAttempts && !Cancelled(cancelAt, FilterMoment(k)) then
          var s := DelaySeconds(backoff, k);
          match AttemptDelayFailure(backoff, k, Cancelled(cancelAt, DelayMoment(k)))
          case Some(d) => UploadOutcome(Err(d), k, if d == OperationCanceled then [s] else [])
          case None =>
            var rest := UploadRun(maxAttempts, backoff, put, cancelAt, k);
            UploadOutcome(rest.result, rest.attempts, [s] + rest.waits)
        else UploadOutcome(Err(e), k, [])
  }

  function PrependWaits(w: seq<int>, o: UploadOutcome): UploadOutcome {
    UploadOutcome(o.result, o.attempts, w + o.waits)
  }

  /** One turn of the loop: the run after `done` failed attempts, in terms of attempt
      done + 1 and the run after it. */
  lemma UploadRunStep(maxAttempts: int, backoff: int, put: nat -> Option<Exn>, cancelAt: Option<nat>, done: nat)
    requires done < maxAttempts
    ensures var k, run := done + 1, UploadRun(maxAttempts, backoff, put, cancelAt, done);
      && (put(k).None? ==> run == UploadOutcome(Ok(()), k, []))
      && (put(k).Some? && !(k < maxAttempts && !Cancelled(cancelAt, FilterMoment(k)))
        ==> run == UploadOutcome(Err(put(k).value), k, []))
      && (put(k).Some? && k < maxAttempts && !Cancelled(cancelAt, FilterMoment(k))
        ==> var s := DelaySeconds(backoff, k);
            var f := AttemptDelayFailure(backoff, k, Cancelled(cancelAt, DelayMoment(k)));
            && (f.Some? ==> run == UploadOutcome(Err(f.value), k, if f.value == OperationCanceled then [s] else []))
            && (f.None? ==> run == PrependWaits([s], UploadRun(maxAttempts, backoff, put, cancelAt, k))))
  {
  }

  lemma PrependTwice(w: seq<int>, v: seq<int>, o: UploadOutcome)
    ensures PrependWaits(w, PrependWaits(v, o)) == PrependWaits(w + v, o)
  {
    assert w + (v + o.waits) == (w + v) + o.waits;
  }

  /** ExecuteWithRetryAsync: the attempt loop over one upload. */
  method ExecuteWithRetryAsync(retry: RetrySettings, put: nat -> Option<Exn>, cancelAt: Option<nat>)
    returns (o: UploadOutcome)
    ensures o == UploadRun(MaxAttemptsOf(retry), BackoffOf(retry), put, cancelAt, 0)
  {
    var maxAttempts := MaxAttemptsOf(retry);
    var backoffSeconds := BackoffOf(retry);
    ghost var whole := UploadRun(maxAttempts, backoffSeconds, put, cancelAt, 0);
    var done: nat := 0;
    var waits := [];
    while done < maxAttempts
      invariant done == 0 || done < maxAttempts
      invariant whole == PrependWaits(waits, UploadRun(maxAttempts, backoffSeconds, put, cancelAt, done))
      decreases maxAttempts - done
    {
      UploadRunStep(maxAttempts, backoffSeconds, put, cancelAt, done);
      var attempt := done + 1;
      var failure := put(attempt);
      if failure.None? {
        return UploadOutcome(Ok(()), attempt, waits);
      }
      if !(attempt < maxAttempts && !Cancelled(cancelAt, FilterMoment(attempt))) {
        return UploadOutcome(Err(failure.value), attempt, waits);
      }
      var delay := DelaySeconds(backoffSeconds, attempt);
      var delayFailure := AttemptDelayFailure(backoffSeconds, attempt, Cancelled(cancelAt, DelayMoment(attempt)));
      if delayFailure.Some? {
        var begun := if delayFailure.value == OperationCanceled then [delay] else [];
        return UploadOutcome(Err(delayFailure.value), attempt, waits + begun);
      }
      PrependTwice(waits, [delay], UploadRun(maxAttempts, backoffSeconds, put, cancelAt, attempt));
      waits := waits + [delay];
      done := attempt;
    }
    assert waits + [] == waits;
    return UploadOutcome(Ok(()), done, waits);
  }

  // ---------------------------------------------------------------- properties

  /** Every run makes at most max(maxAttempts, 0) attempts, waits once per failed attempt
      that is retried, and the i-th wait is backoff * 2^i seconds. */
  lemma {:induction false} UploadRunShape(maxAttempts: int, backoff: int, put: nat -> Option<Exn>, cancelAt: Option<nat>, done: nat)
    requires done == 0 || done < maxAttempts
    ensures var o := UploadRun(maxAttempts, backoff, put, cancelAt, done);
      && done <= o.attempts && (o.attempts <= maxAttempts || o.attempts == done)
      && |o.waits| <= o.attempts - done
      && (forall i | 0 <= i < |o.waits| :: o.waits[i] == backoff * Pow2(done + i))
      && (o.result.Ok? && o.attempts > done ==> put(o.attempts).None?)
      && (forall k | done < k < o.attempts :: put(k).Some?)
    decreases if done < maxAttempts then maxAttempts - done else 0
  {
    var k := done + 1;
    if k <= maxAttempts && put(k).Some? && k < maxAttempts && !Cancelled(cancelAt, FilterMoment(k))
      && AttemptDelayFailure(backoff, k, Cancelled(cancelAt, DelayMoment(k))).None?
    {
      UploadRunShape(maxAttempts, backoff, put, cancelAt, k);
      var rest := UploadRun(maxAttempts, backoff, put, cancelAt, k);
      var o := UploadRun(maxAttempts, backoff, put, cancelAt, done);
      assert o.waits == [DelaySeconds(backoff, k)] + rest.waits;
      forall i | 0 <= i < |o.waits|
        ensures o.waits[i] == backoff * Pow2(done + i)
      {
        if i > 0 {
          assert o.waits[i] == rest.waits[i - 1];
        }
      }
    }
  }

  /** The upload makes at most MaxAttempts attempts, returns right after the first one
      that succeeds, and waits backoff, 2 * backoff, 4 * backoff, ... seconds between them. */
  lemma UploadBounds(retry: RetrySettings, put: nat -> Option<Exn>, cancelAt: Option<nat>)
    ensures var o := UploadRun(MaxAttemptsOf(retry), BackoffOf(retry), put, cancelAt, 0);
      && o.attempts <= (if MaxAttemptsOf(retry) < 0 then 0 else MaxAttemptsOf(retry))
      && |o.waits| <= o.attempts
      && (forall i | 0 <= i < |o.waits| :: o.waits[i] == BackoffOf(retry) * Pow2(i))
      && (o.result.Ok? && o.attempts > 0 ==> put(o.attempts).None? && forall k | 0 < k < o.attempts :: put(k).Some?)
  {
    UploadRunShape(MaxAttemptsOf(retry), BackoffOf(retry), put, cancelAt, 0);
  }

  /** With the default settings the waits are 2 s and then 4 s. */
  lemma DefaultBackoff(put: nat -> Option<Exn>)
    requires forall k | 1 <= k <= 3 :: put(k).Some?
    ensures UploadRun(MaxAttemptsOf(RetrySettings(None, None)), BackoffOf(RetrySettings(None, None)), put, None, 0)
      == UploadOutcome(Err(put(3).value), 3, [2, 4])
  {
  }

  /** With no attempts allowed the loop body never runs: the method returns normally and
      nothing is uploaded. */
  lemma NoAttemptsNoUpload(retry: RetrySettings, put: nat -> Option<Exn>, cancelAt: Option<nat>)
    requires MaxAttemptsOf(retry) <= 0
    ensures UploadRun(MaxAttemptsOf(retry), BackoffOf(retry), put, cancelAt, 0) == UploadOutcome(Ok(()), 0, [])
  {
  }

  /** A failure of the last attempt, or one after cancellation was requested, is rethrown
      with no further wait. */
  lemma LastFailureRethrown(maxAttempts: int, backoff: int, put: nat -> Option<Exn>, cancelAt: Option<nat>, k: nat)
    requires 1 <= k <= maxAttempts && put(k).Some?
    requires k == maxAttempts || Cancelled(cancelAt, FilterMoment(k))
    ensures UploadRun(maxAttempts, backoff, put, cancelAt, k - 1) == UploadOutcome(Err(put(k).value), k, [])
  {
  }

  /** A zero backoff waits nothing between attempts until the 1025th, whose delay is NaN:
      with MaxAttempts above 1025 and uploads that keep failing, the run stops there with
      ArgumentException instead of reaching the last attempt. */
  lemma ZeroBackoffNaNDelay(maxAttempts: int, put: nat -> Option<Exn>)
    requires maxAttempts > 1025 && forall k | 1 <= k <= 1025 :: put(k).Some?
    ensures var o := UploadRun(maxAttempts, 0, put, None, 0);
      o.result == Err(Argument) && o.attempts == 1025 && |o.waits| == 1024
      && forall i | 0 <= i < |o.waits| :: o.waits[i] == 0
  {
    ZeroBackoffRun(maxAttempts, put, 0);
  }

  lemma {:induction false} ZeroBackoffRun(maxAttempts: int, put: nat -> Option<Exn>, done: nat)
    requires maxAttempts > 1025 && done <= 1024 && forall k | 1 <= k <= 1025 :: put(k).Some?
    ensures var o := UploadRun(maxAttempts, 0, put, None, done);
      o.result == Err(Argument) && o.attempts == 1025 && |o.waits| == 1024 - done
      && forall i | 0 <= i < |o.waits| :: o.waits[i] == 0
    decreases 1024 - done
  {
    UploadRunStep(maxAttempts, 0, put, None, done);
    if done < 1024 {
      ZeroBackoffRun(maxAttempts, put, done + 1);
      assert DelaySeconds(0, done + 1) == 0;
    }
  }

  /** A negative backoff makes the first retry raise ArgumentOutOfRangeException from
      Task.Delay instead of waiting: the upload is not retried. */
  lemma NegativeBackoffRaises(maxAttempts: int, backoff: int, put: nat -> Option<Exn>)
    requires maxAttempts >= 2 && -922337203685 <= backoff < 0 && put(1).Some?
    ensures UploadRun(maxAttempts, backoff, put, None, 0) == UploadOutcome(Err(ArgumentOutOfRange), 1, [])
  {
    assert DelaySeconds(backoff, 1) == backoff;
  }
}
