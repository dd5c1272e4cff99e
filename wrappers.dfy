/** Failure-compatible wrappers shared by every module of the model. */
module Wrappers {

  /** A value that may be absent (Python `None`, a regex that did not match). */
  datatype Option<+T> = None | Some(value: T) {
    predicate IsFailure() { None? }

    function PropagateFailure<U>(): Option<U>
      requires None?
    {
      None
    }

    function Extract(): T
      requires Some?
    {
      value
    }

    function GetOr(default: T): T {
      if Some? then value else default
    }
  }

  /** The outcome of an operation that the source lets raise an exception. */
  datatype Result<+T, +E> = Success(value: T) | Failure(error: E) {
    predicate IsFailure() { Failure? }

    function PropagateFailure<U>(): Result<U, E>
      requires Failure?
    {
      Failure(error)
    }

    function Extract(): T
      requires Success?
    {
      value
    }
  }

  /**
   * The first present value among `hit(i)`, `hit(i + 1)`, ..., `hit(n - 1)`:
   * where a scan that stops at its first hit ends.
   */
  function FirstHit<T>(hit: nat -> Option<T>, n: nat, i: nat): Option<T>
    requires i <= n
    decreases n - i
  {
    if i == n then None
    else if hit(i).Some? then hit(i)
    else FirstHit(hit, n, i + 1)
  }

  /** The scan from `i` yields the first hit at or after `i`, and nothing exactly when there is none. */
  lemma {:induction false} FirstHitIsFirst<T>(hit: nat -> Option<T>, n: nat, i: nat)
    requires i <= n
    decreases n - i
    ensures FirstHit(hit, n, i).None? <==> forall j | i <= j < n :: hit(j).None?
    ensures FirstHit(hit, n, i).Some? ==>
      exists j | i <= j < n :: FirstHit(hit, n, i) == hit(j) && forall k | i <= k < j :: hit(k).None?
  {
    if i < n && hit(i).None? {
      FirstHitIsFirst(hit, n, i + 1);
      if FirstHit(hit, n, i).Some? {
        var j :| i + 1 <= j < n && FirstHit(hit, n, i + 1) == hit(j) && forall k | i + 1 <= k < j :: hit(k).None?;
        assert forall k | i <= k < j :: hit(k).None?;
      }
    }
  }

  /**
   * The last present value among `hit(0)`, ..., `hit(n - 1)`: where a scan
   * that never stops and keeps overwriting its result ends.
   */
  function LastHit<T>(hit: nat -> Option<T>, n: nat): Option<T> {
    if n == 0 then None
    else if hit(n - 1).Some? then hit(n - 1)
    else LastHit(hit, n - 1)
  }

  /** The scan yields the last hit before `n`, and nothing exactly when there is none. */
  lemma {:induction false} LastHitIsLast<T>(hit: nat -> Option<T>, n: nat)
    ensures LastHit(hit, n).None? <==> forall j | 0 <= j < n :: hit(j).None?
    ensures LastHit(hit, n).Some? ==>
      exists j | 0 <= j < n :: LastHit(hit, n) == hit(j) && forall k | j < k < n :: hit(k).None?
  {
    if n > 0 && hit(n - 1).None? {
      LastHitIsLast(hit, n - 1);
      if LastHit(hit, n).Some? {
        var j :| 0 <= j < n - 1 && LastHit(hit, n - 1) == hit(j) && forall k | j < k < n - 1 :: hit(k).None?;
        assert forall k | j < k < n :: hit(k).None?;
      }
    }
  }
}
