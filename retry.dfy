/**
 * `handle_db_errors`: the decorator that calls a route function up to three
 * times, retrying after a locked database or an unexpected exception and
 * turning every other failure into an HTTP 500 answer.
 *
 * The wrapped function is given as `outcome`: what its n-th call (from 0)
 * returns or raises. Sleeps are recorded as their length in tenths of a
 * second.
 */
module Retry {
  import opened Text

  /** How one call of the wrapped function ends. */
  datatype Outcome<T> =
    | Returned(value: T)
    | OperationalError(message: string)   // sqlite3.OperationalError
    | FileNotFound(message: string)       // FileNotFoundError
    | OtherError(message: string)         // any other Exception

  /** What the decorated function answers. */
  datatype Answer<T> =
    | Passed(value: T)                    // the wrapped function's own result
    | DatabaseError(message: string)      // 500 "Database error: ..."
    | FileMissing(message: string)        // 500 "Database file not found: ..."
    | ServerError(message: string)        // 500 "Server error: ..."
    | RetriesExceeded                     // 500 "Maximum retries exceeded"

  const MaxRetries: nat := 3

  const LockMessage: string := "database is locked"

  /** `"database is locked" in str(e).lower()` */
  predicate IsLockError(message: string) { Contains(Lower(message), LockMessage) }

  /** The failures after which the loop sleeps and tries again, attempts left permitting. */
  predicate Retryable<T>(o: Outcome<T>) {
    (o.OperationalError? && IsLockError(o.message)) || o.OtherError?
  }

  /**
   * The answer for the call that ends the loop: the returned value itself,
   * or the 500 answer of the handler that caught the exception, carrying
   * its message.
   */
  function Final<T>(o: Outcome<T>): (a: Answer<T>)
    ensures a.Passed? <==> o.Returned?
    ensures o.Returned? ==> a == Passed(o.value)
    ensures o.OperationalError? ==> a == DatabaseError(o.message)
    ensures o.FileNotFound? ==> a == FileMissing(o.message)
    ensures o.OtherError? ==> a == ServerError(o.message)
    ensures !a.RetriesExceeded?
  {
    match o
    case Returned(v) => Passed(v)
    case OperationalError(m) => DatabaseError(m)
    case FileNotFound(m) => FileMissing(m)
    case OtherError(m) => ServerError(m)
  }

  /** Calls made: up to and including the first that is not retryable, and never more than three. */
  function CallsMade<T>(outcome: nat -> Outcome<T>): (n: nat)
    ensures 1 <= n <= MaxRetries
    ensures forall j :: 0 <= j < n - 1 ==> Retryable(outcome(j))
    ensures n < MaxRetries ==> !Retryable(outcome(n - 1))
  {
    if !Retryable(outcome(0)) then 1 else if !Retryable(outcome(1)) then 2 else 3
  }

  /** The decorated function's answer, stated without the loop. */
  function Decorated<T>(outcome: nat -> Outcome<T>): Answer<T> {
    Final(outcome(CallsMade(outcome) - 1))
  }

  /**
   * The decorator's loop. It makes `CallsMade(outcome)` calls, sleeps
   * 0.1 s, then 0.2 s, before the second and third, and answers for the last
   * call.
   */
  method HandleDbErrors<T>(outcome: nat -> Outcome<T>) returns (answer: Answer<T>, calls: nat, delays: seq<nat>)
    ensures calls == CallsMade(outcome) && answer == Final(outcome(calls - 1))
    ensures |delays| == calls - 1 && forall i :: 0 <= i < |delays| ==> delays[i] == i + 1
  {
    calls, delays := 0, [];
    var attempt: nat := 0;
    while attempt < MaxRetries
      invariant attempt < MaxRetries
      invariant calls == attempt && |delays| == attempt
      invariant forall i :: 0 <= i < attempt ==> delays[i] == i + 1
      invariant forall j :: 0 <= j < attempt ==> Retryable(outcome(j))
      decreases MaxRetries - attempt
    {
      var o := outcome(attempt);
      calls := calls + 1;
      match o
      case Returned(v) =>
        return Passed(v), calls, delays;
      case OperationalError(m) =>
        if IsLockError(m) && attempt < MaxRetries - 1 {
          delays := delays + [attempt + 1];
          attempt := attempt + 1;
        } else {
          return DatabaseError(m), calls, delays;
        }
      case FileNotFound(m) =>
        return FileMissing(m), calls, delays;
      case OtherError(m) =>
        if attempt < MaxRetries - 1 {
          delays := delays + [attempt + 1];
          attempt := attempt + 1;
        } else {
          return ServerError(m), calls, delays;
        }
    }
    answer := RetriesExceeded;
  }

  // ---------------------------------------------------------------------
  // properties

  /** The "Maximum retries exceeded" answer after the loop is never given. */
  lemma NeverRetriesExceeded<T>(outcome: nat -> Outcome<T>)
    ensures !Decorated(outcome).RetriesExceeded?
  {
  }

  /**
   * The wrapped function's result passes through unchanged exactly when one
   * of the first three calls returns it and every call before it failed in a
   * retryable way.
   */
  lemma PassedExactly<T>(outcome: nat -> Outcome<T>, v: T)
    ensures Decorated(outcome) == Passed(v) <==>
              exists i :: 0 <= i < MaxRetries && outcome(i) == Returned(v)
                          && forall j :: 0 <= j < i ==> Retryable(outcome(j))
  {
    var n := CallsMade(outcome);
    if Decorated(outcome) == Passed(v) {
      assert outcome(n - 1) == Returned(v);
    }
    if exists i :: 0 <= i < MaxRetries && outcome(i) == Returned(v) && forall j :: 0 <= j < i ==> Retryable(outcome(j)) {
      var i :| 0 <= i < MaxRetries && outcome(i) == Returned(v) && forall j :: 0 <= j < i ==> Retryable(outcome(j));
      assert i == n - 1;
    }
  }

  /** A missing file or an OperationalError that is not a lock fails on the spot. */
  lemma FatalErrorsAreNotRetried<T>(outcome: nat -> Outcome<T>)
    requires outcome(0).FileNotFound? || (outcome(0).OperationalError? && !IsLockError(outcome(0).message))
    ensures CallsMade(outcome) == 1
    ensures Decorated(outcome).FileMissing? || Decorated(outcome).DatabaseError?
  {
  }

  /** A lock error on the third call is not retried: it answers "Database error". */
  lemma LockedEveryTime<T>(outcome: nat -> Outcome<T>)
    requires forall i :: 0 <= i < MaxRetries ==> outcome(i).OperationalError? && IsLockError(outcome(i).message)
    ensures CallsMade(outcome) == MaxRetries
    ensures Decorated(outcome) == DatabaseError(outcome(2).message)
  {
    assert Retryable(outcome(0)) && Retryable(outcome(1));
  }

  /** Letter case does not matter: two messages equal up to case are both lock errors or neither. */
  lemma LockErrorIgnoresCase(a: string, b: string)
    requires Lower(a) == Lower(b)
    ensures IsLockError(a) <==> IsLockError(b)
  {
  }

  /** In particular a message is a lock error exactly when its upper-case form is. */
  lemma UpperLockError(m: string)
    ensures IsLockError(Upper(m)) <==> IsLockError(m)
  {
    LowerUpper(m);
    LockErrorIgnoresCase(Upper(m), m);
  }

  /** An example: `"DATABASE IS LOCKED"` is a lock error. */
  lemma ShoutedLockError()
    ensures IsLockError("DATABASE IS LOCKED")
  {
    assert Lower("DATABASE IS LOCKED") == LockMessage;
    assert StartsWith(Lower("DATABASE IS LOCKED"), LockMessage);
  }
}
