/**
 * The retry loops of the channels, over a finite script of native
 * calls. Each step is what one call returns and what another thread did
 * to the channel while the call was in flight; a loop retries while the
 * call was interrupted and the channel is still open.
 */
module RetryScript {
  import opened Nio

  /** What another thread does while a native call of this channel is in flight. */
  datatype Interference = Quiet | AsyncClose | AsyncShutdownInput | AsyncShutdownOutput

  /** One native call: what it returns and what happened meanwhile. */
  datatype Step = Step(ret: IoReturn, during: Interference)

  /** Some call among the first `k` had a close land on the channel. */
  predicate ClosedWithin(steps: seq<Step>, k: nat)
    requires k <= |steps|
  {
    k > 0 && (steps[k - 1].during == AsyncClose || ClosedWithin(steps, k - 1))
  }

  /** Some call among the first `k` had an input shutdown land on the channel. */
  predicate InputShutWithin(steps: seq<Step>, k: nat)
    requires k <= |steps|
  {
    k > 0 && (steps[k - 1].during == AsyncShutdownInput || InputShutWithin(steps, k - 1))
  }

  /** Some call among the first `k` had an output shutdown land on the channel. */
  predicate OutputShutWithin(steps: seq<Step>, k: nat)
    requires k <= |steps|
  {
    k > 0 && (steps[k - 1].during == AsyncShutdownOutput || OutputShutWithin(steps, k - 1))
  }

  /**
   * The retry loops stop after call `i` unless it returned 0 in a loop
   * that skips zero (blocking finishConnect), or it returned
   * IOS_INTERRUPTED while the channel is still open.
   */
  predicate Stops(steps: seq<Step>, i: nat, retryZero: bool)
    requires i < |steps|
  {
    && !(retryZero && steps[i].ret == Code(0))
    && (steps[i].ret != Code(IOS_INTERRUPTED) || ClosedWithin(steps, i + 1))
  }

  /** The script ends the retry loop somewhere. */
  predicate Settles(steps: seq<Step>, retryZero: bool) {
    exists i :: 0 <= i < |steps| && Stops(steps, i, retryZero)
  }

  /** The loop issued exactly `calls` calls: every earlier one retried, the last one stopped. */
  predicate StoppedAt(steps: seq<Step>, calls: nat, retryZero: bool) {
    && 1 <= calls <= |steps|
    && Stops(steps, calls - 1, retryZero)
    && forall j :: 0 <= j < calls - 1 ==> !Stops(steps, j, retryZero)
  }

  /** The argument of end(): some I/O was done, or a non-blocking call found nothing to do. */
  predicate Completed(ret: IoReturn) {
    ret.Code? && (ret.n > 0 || ret.n == IOS_UNAVAILABLE)
  }

  /**
   * The value of `n` when the finally block runs: the last result, or,
   * when the call threw, the previous one (0 or IOS_INTERRUPTED; both
   * non-positive and not completed, so 0 stands for either).
   */
  function Transferred(ret: IoReturn): int {
    if ret.Code? then ret.n else 0
  }
}
