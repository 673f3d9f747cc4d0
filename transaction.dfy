/**
 * `TransactionStatement::exec`: up to `attemptNo` attempts, each a begin, the
 * closure and a commit; every failure is rolled back and then classified, and only
 * a transient `PDOException` (SQLSTATE 40001 or a message asking to restart the
 * transaction) leads to another attempt. The driver and the closure are outside
 * the model: what attempt number i does, including whether its rollBack throws, is
 * given by the parameter `attempts`, and the driver calls and the sleep are
 * recorded as a trace of events.
 *
 * `Run` is the documented behaviour, which `Exec` follows. The code as written
 * never reaches a second attempt when the sleep is positive: `usleep` is given
 * the float `sleep * 1000000` in a strict-types file and throws a TypeError
 * instead; `RunAsWritten` is that behaviour.
 */
module Transaction {
  import opened Php

  const DefaultAttemptNo := 10
  const DefaultSleepTime: real := 0.2

  /** The code of an exception: PDO reports SQLSTATE as a string, user code may use an int. */
  datatype Code = IntCode(n: int) | TextCode(s: string)

  datatype Failure =
    | PdoException(code: Code, message: string)
    | OtherThrowable(message: string)

  /** Where an attempt stops: beginTransaction, the closure or commit throwing. */
  datatype Stage = AtBegin | InClosure | AtCommit

  /**
   * A failed attempt records what its rollBack throws, if anything: PDO's rollBack
   * throws when no transaction is open, as after a failed beginTransaction.
   */
  datatype Attempt<R> = Succeeds(result: R) | Fails(stage: Stage, failure: Failure, rollback: Option<Failure>)

  datatype Event = Begin | Call | Commit | Rollback | Sleep

  /**
   * How `exec` ends: the closure's result, a rethrown exception, `throw null`, or
   * (as written) the TypeError of `usleep` receiving a float.
   */
  datatype Ending<R> = Returned(result: R) | Rethrown(failure: Failure) | ThrowsNull | SleepTypeError

  /**
   * `getCode() == 40001` under PHP 8's loose comparison: a string code is compared
   * as a number when it is numeric (" 40001", "40001.0", "4.0001e4"), and as a
   * string, which never equals "40001", otherwise.
   */
  predicate Is40001(code: Code) {
    match code
    case IntCode(n) => n == 40001
    case TextCode(s) =>
      var t := TrimLeadingWs(s);
      IsNumeric(s) && !(t != [] && t[0] == '-') && DecimalIs(LeadingDecimal(DropSign(t)), 40001)
  }

  /** The decimal m * 10^k equals n exactly. */
  predicate DecimalIs(d: (nat, int), n: nat) {
    if d.1 >= 0 then Scale(d.0, d.1) == n else d.0 == Scale(n, -d.1)
  }

  /** A matching code is the int 40001 or a numeric string that intval reads as 40001. */
  lemma Is40001Reads(code: Code)
    ensures Is40001(code) ==> code == IntCode(40001) || (code.TextCode? && IsNumeric(code.s) && IntVal(code.s) == 40001)
  {
    if code.TextCode? {
      DecimalIsScale(LeadingDecimal(DropSign(TrimLeadingWs(code.s))), 40001);
    }
  }

  /** Scaling up by k and then down by k gives m back. */
  lemma {:induction false} ScaleUpDown(m: nat, k: nat)
    ensures Scale(Scale(m, k), -(k as int)) == m
    decreases k
  {
    if k > 0 {
      ScaleUpStep(m, k);
      ScaleUpDown(m, k - 1);
      assert Scale(10 * Scale(m, k - 1), -(k as int)) == Scale(Scale(m, k - 1), -(k as int - 1));
    }
  }

  lemma {:induction false} ScaleUpStep(m: nat, k: nat)
    requires k > 0
    ensures Scale(m, k) == 10 * Scale(m, k - 1)
    decreases k
  {
    if k > 1 {
      ScaleUpStep(10 * m, k - 1);
    }
  }

  /** A decimal equal to n reads as n once truncated. */
  lemma DecimalIsScale(d: (nat, int), n: nat)
    ensures DecimalIs(d, n) ==> Scale(d.0, d.1) == n
  {
    if d.1 < 0 && DecimalIs(d, n) {
      ScaleUpDown(n, -d.1);
    }
  }

  /** A code spelled as the decimal of an int matches exactly when that int is 40001. */
  lemma DecimalCodeIs40001(n: int)
    ensures Is40001(TextCode(IntToString(n))) <==> n == 40001
  {
    DecimalSpelling(n);
  }

  /** `restart`: only a PDOException with code 40001 or the restart message is retried. */
  predicate Retryable(f: Failure) {
    f.PdoException? && (Is40001(f.code) || Contains(f.message, "try restarting transaction"))
  }

  /**
   * Only a PDOException restarts: one whose code reads as 40001 or whose message
   * asks to restart; the code 40001, as an int or spelled out, always restarts.
   */
  lemma RestartClassification(f: Failure)
    ensures Retryable(f) ==>
      && f.PdoException?
      && (|| f.code == IntCode(40001)
          || (f.code.TextCode? && IntVal(f.code.s) == 40001)
          || Contains(f.message, "try restarting transaction"))
    ensures
      && f.PdoException?
      && (|| f.code == IntCode(40001)
          || f.code == TextCode(IntToString(40001))
          || Contains(f.message, "try restarting transaction"))
      ==> Retryable(f)
  {
    if f.PdoException? {
      Is40001Reads(f.code);
    }
    DecimalCodeIs40001(40001);
  }

  /** A failed attempt whose rollBack went through and whose exception is transient. */
  predicate Retried<R>(a: Attempt<R>) {
    a.Fails? && a.rollback.None? && Retryable(a.failure)
  }

  /** What leaves `exec` after a failed attempt that is not retried: rollBack's own exception first. */
  function Thrown<R>(a: Attempt<R>): Failure
    requires a.Fails?
  {
    if a.rollback.Some? then a.rollback.value else a.failure
  }

  /** The driver calls one attempt makes, including the rollBack of a failed one. */
  function AttemptEvents<R>(a: Attempt<R>): seq<Event> {
    match a
    case Succeeds(_) => [Begin, Call, Commit]
    case Fails(AtBegin, _, _) => [Begin, Rollback]
    case Fails(InClosure, _, _) => [Begin, Call, Rollback]
    case Fails(AtCommit, _, _) => [Begin, Call, Commit, Rollback]
  }

  /** The closure runs unless beginTransaction threw. */
  function CallsOf<R>(a: Attempt<R>): nat {
    if a.Fails? && a.stage == AtBegin then 0 else 1
  }

  /** commit is reached by a success and by a commit that throws. */
  function CommitsOf<R>(a: Attempt<R>): nat {
    if a.Succeeds? || (a.Fails? && a.stage == AtCommit) then 1 else 0
  }

  /** Closure calls of attempts i up to (excluding) k. */
  function CallsIn<R>(attempts: nat -> Attempt<R>, i: nat, k: nat): nat
    decreases k - i
  {
    if k <= i then 0 else CallsOf(attempts(i)) + CallsIn(attempts, i + 1, k)
  }

  /** Commits of attempts i up to (excluding) k. */
  function CommitsIn<R>(attempts: nat -> Attempt<R>, i: nat, k: nat): nat
    decreases k - i
  {
    if k <= i then 0 else CommitsOf(attempts(i)) + CommitsIn(attempts, i + 1, k)
  }

  function SleepEvents(sleep: real): seq<Event> {
    if 0.0 < sleep then [Sleep] else []
  }

  /** The attempts from number i on, after `last` was caught. */
  function Run<R>(attemptNo: int, sleep: real, attempts: nat -> Attempt<R>, i: nat, last: Option<Failure>)
    : (r: (Ending<R>, seq<Event>))
    decreases attemptNo - i
  {
    if i >= attemptNo then (if last.Some? then Rethrown(last.value) else ThrowsNull, [])
    else
      var a := attempts(i);
      if a.Succeeds? then (Returned(a.result), AttemptEvents(a))
      else if !Retried(a) then (Rethrown(Thrown(a)), AttemptEvents(a))
      else
        var later := Run(attemptNo, sleep, attempts, i + 1, Some(a.failure));
        (later.0, AttemptEvents(a) + SleepEvents(sleep) + later.1)
  }

  /**
   * The documented run never raises the TypeError, and returns null exactly when no
   * attempt was left to make and nothing had been caught.
   */
  lemma {:induction false} RunEndings<R>(attemptNo: int, sleep: real, attempts: nat -> Attempt<R>, i: nat, last: Option<Failure>)
    ensures var r := Run(attemptNo, sleep, attempts, i, last);
      && (r.0.ThrowsNull? <==> i >= attemptNo && last.None?)
      && !r.0.SleepTypeError?
    decreases attemptNo - i
  {
    if i < attemptNo && Retried(attempts(i)) {
      RunEndings(attemptNo, sleep, attempts, i + 1, Some(attempts(i).failure));
    }
  }

  /** `exec` as written: a retry with a positive sleep ends in the TypeError of `usleep`. */
  function RunAsWritten<R>(attemptNo: int, sleep: real, attempts: nat -> Attempt<R>, i: nat, last: Option<Failure>)
    : (r: (Ending<R>, seq<Event>))
    ensures r.0.SleepTypeError? ==> 0.0 < sleep
    ensures r.0.ThrowsNull? <==> i >= attemptNo && last.None?
    ensures Sleep !in r.1
    decreases attemptNo - i
  {
    if i >= attemptNo then (if last.Some? then Rethrown(last.value) else ThrowsNull, [])
    else
      var a := attempts(i);
      if a.Succeeds? then (Returned(a.result), AttemptEvents(a))
      else if !Retried(a) then (Rethrown(Thrown(a)), AttemptEvents(a))
      else if 0.0 < sleep then (SleepTypeError, AttemptEvents(a))
      else
        var later := RunAsWritten(attemptNo, sleep, attempts, i + 1, Some(a.failure));
        (later.0, AttemptEvents(a) + later.1)
  }

  /** Without a sleep the code as written is the documented behaviour. */
  lemma {:induction false} AsWrittenWithoutSleep<R>(attemptNo: int, sleep: real, attempts: nat -> Attempt<R>, i: nat, last: Option<Failure>)
    requires sleep <= 0.0
    ensures RunAsWritten(attemptNo, sleep, attempts, i, last) == Run(attemptNo, sleep, attempts, i, last)
    decreases attemptNo - i
  {
    if i < attemptNo && Retried(attempts(i)) {
      AsWrittenWithoutSleep(attemptNo, sleep, attempts, i + 1, Some(attempts(i).failure));
      assert AttemptEvents(attempts(i)) + SleepEvents(sleep) == AttemptEvents(attempts(i));
    }
  }

  /**
   * With a positive sleep the code as written stops at the first transient
   * failure with a TypeError, after rolling it back and before sleeping, where the
   * documented behaviour goes on to the next attempt.
   */
  lemma AsWrittenStopsAtRetry<R>(attemptNo: int, sleep: real, attempts: nat -> Attempt<R>, i: nat, last: Option<Failure>)
    requires 0.0 < sleep && i < attemptNo && Retried(attempts(i))
    ensures RunAsWritten(attemptNo, sleep, attempts, i, last) == (SleepTypeError, AttemptEvents(attempts(i)))
    ensures Run(attemptNo, sleep, attempts, i, last).0 == Run(attemptNo, sleep, attempts, i + 1, Some(attempts(i).failure)).0
  {
  }

  /** A deadlock in the first attempt with the default settings: retried, or a TypeError as written. */
  lemma DeadlockThenSuccess()
    ensures var attempts := (j: nat) => if j == 0 then Fails(InClosure, PdoException(IntCode(40001), "Deadlock"), None) else Succeeds(7);
      && Run(DefaultAttemptNo, DefaultSleepTime, attempts, 0, None).0 == Returned(7)
      && RunAsWritten(DefaultAttemptNo, DefaultSleepTime, attempts, 0, None).0 == SleepTypeError
  {
    var attempts := (j: nat) => if j == 0 then Fails(InClosure, PdoException(IntCode(40001), "Deadlock"), None) else Succeeds(7);
    assert Retried(attempts(0));
    assert Run(DefaultAttemptNo, DefaultSleepTime, attempts, 1, Some(attempts(0).failure)).0 == Returned(7);
  }

  /**
   * A rollBack that throws ends `exec` with its own exception, whatever the
   * attempt's failure was: a failed beginTransaction, after which PDO has no
   * transaction to roll back, is never retried.
   */
  lemma RollbackFailureEnds<R>(attemptNo: int, sleep: real, attempts: nat -> Attempt<R>, i: nat, last: Option<Failure>)
    requires i < attemptNo && attempts(i).Fails? && attempts(i).rollback.Some?
    ensures Run(attemptNo, sleep, attempts, i, last) == (Rethrown(attempts(i).rollback.value), AttemptEvents(attempts(i)))
    ensures RunAsWritten(attemptNo, sleep, attempts, i, last) == Run(attemptNo, sleep, attempts, i, last)
  {
  }

  /** The first k attempts all failed and were retried. */
  predicate RetriedUpTo<R>(attempts: nat -> Attempt<R>, k: nat) {
    forall j: nat :: j < k ==> Retried(attempts(j))
  }

  function Count(trace: seq<Event>, e: Event): nat {
    if trace == [] then 0 else (if trace[0] == e then 1 else 0) + Count(trace[1..], e)
  }

  lemma {:induction false} CountAppend(a: seq<Event>, b: seq<Event>, e: Event)
    ensures Count(a + b, e) == Count(a, e) + Count(b, e)
    decreases |a|
  {
    if a == [] {
      assert a + b == b;
    } else {
      assert (a + b)[1..] == a[1..] + b;
      CountAppend(a[1..], b, e);
    }
  }

  /**
   * Each attempt begins once, calls the closure once unless beginTransaction threw,
   * commits once when it succeeds or commit threw, and rolls back once exactly when
   * it fails.
   */
  lemma AttemptCounts<R>(a: Attempt<R>, sleep: real)
    ensures Count(AttemptEvents(a), Begin) == 1
    ensures Count(AttemptEvents(a), Call) == CallsOf(a)
    ensures Count(AttemptEvents(a), Commit) == CommitsOf(a)
    ensures Count(AttemptEvents(a), Rollback) == if a.Succeeds? then 0 else 1
    ensures Count(AttemptEvents(a), Sleep) == 0
    ensures Count(SleepEvents(sleep), Begin) == 0 && Count(SleepEvents(sleep), Rollback) == 0
    ensures Count(SleepEvents(sleep), Call) == 0 && Count(SleepEvents(sleep), Commit) == 0
    ensures Count(SleepEvents(sleep), Sleep) == if 0.0 < sleep then 1 else 0
  {
    assert [Begin, Call, Commit, Rollback][1..] == [Call, Commit, Rollback];
    assert [Begin, Call, Commit][1..] == [Call, Commit];
    assert [Begin, Call, Rollback][1..] == [Call, Rollback];
    assert [Begin, Rollback][1..] == [Rollback];
    assert [Call, Commit, Rollback][1..] == [Commit, Rollback];
    assert [Call, Commit][1..] == [Commit];
    assert [Call, Rollback][1..] == [Rollback];
    assert [Commit, Rollback][1..] == [Rollback];
    assert [Commit][1..] == [Rollback][1..] == [Sleep][1..] == [];
  }

  /** `exec`. */
  method Exec<R>(attemptNo: int, sleep: real, attempts: nat -> Attempt<R>) returns (ending: Ending<R>, trace: seq<Event>)
    ensures (ending, trace) == Run(attemptNo, sleep, attempts, 0, None)
  {
    var last: Option<Failure> := None;
    trace := [];
    var i: nat := 0;
    assert trace + Run(attemptNo, sleep, attempts, i, last).1 == Run(attemptNo, sleep, attempts, i, last).1;
    while i < attemptNo
      invariant Run(attemptNo, sleep, attempts, 0, None).0 == Run(attemptNo, sleep, attempts, i, last).0
      invariant Run(attemptNo, sleep, attempts, 0, None).1 == trace + Run(attemptNo, sleep, attempts, i, last).1
      decreases attemptNo - i
    {
      var a := attempts(i);
      trace := trace + AttemptEvents(a);
      if a.Succeeds? || !Retried(a) {
        ending := if a.Succeeds? then Returned(a.result) else Rethrown(Thrown(a));
        assert Run(attemptNo, sleep, attempts, i, last) == (ending, AttemptEvents(a));
        return;
      }
      RetryStep(attemptNo, sleep, attempts, i, last);
      trace := trace + SleepEvents(sleep);
      last := Some(a.failure);
      i := i + 1;
    }
    ending := if last.Some? then Rethrown(last.value) else ThrowsNull;
    assert Run(attemptNo, sleep, attempts, i, last) == (ending, []);
    assert trace + [] == trace;
  }

  /** How a run continues after a transient failure at attempt i. */
  lemma RetryStep<R>(attemptNo: int, sleep: real, attempts: nat -> Attempt<R>, i: nat, last: Option<Failure>)
    requires i < attemptNo && Retried(attempts(i))
    ensures var later := Run(attemptNo, sleep, attempts, i + 1, Some(attempts(i).failure));
      && Run(attemptNo, sleep, attempts, i, last).0 == later.0
      && Run(attemptNo, sleep, attempts, i, last).1 == AttemptEvents(attempts(i)) + SleepEvents(sleep) + later.1
  {
  }

  /** A transient failure at attempt i: its events and the sleep come before the rest of the run. */
  lemma RetryCounts<R>(attemptNo: int, sleep: real, attempts: nat -> Attempt<R>, i: nat, last: Option<Failure>, e: Event)
    requires i < attemptNo && Retried(attempts(i))
    ensures var later := Run(attemptNo, sleep, attempts, i + 1, Some(attempts(i).failure));
      && Run(attemptNo, sleep, attempts, i, last).0 == later.0
      && Count(Run(attemptNo, sleep, attempts, i, last).1, e)
         == Count(AttemptEvents(attempts(i)), e) + Count(SleepEvents(sleep), e) + Count(later.1, e)
  {
    var a := attempts(i);
    var rest := Run(attemptNo, sleep, attempts, i + 1, Some(a.failure)).1;
    RetryStep(attemptNo, sleep, attempts, i, last);
    CountAppend(AttemptEvents(a), SleepEvents(sleep), e);
    CountAppend(AttemptEvents(a) + SleepEvents(sleep), rest, e);
  }

  /** A retried attempt adds one begin, one rollBack and, with a positive sleep, one sleep. */
  lemma RetryAdds<R>(attemptNo: int, sleep: real, attempts: nat -> Attempt<R>, i: nat, last: Option<Failure>)
    requires i < attemptNo && Retried(attempts(i))
    ensures var run := Run(attemptNo, sleep, attempts, i, last);
      var later := Run(attemptNo, sleep, attempts, i + 1, Some(attempts(i).failure));
      && run.0 == later.0
      && Count(run.1, Begin) == Count(later.1, Begin) + 1
      && Count(run.1, Rollback) == Count(later.1, Rollback) + 1
      && Count(run.1, Sleep) == Count(later.1, Sleep) + (if 0.0 < sleep then 1 else 0)
  {
    AttemptCounts(attempts(i), sleep);
    RetryCounts(attemptNo, sleep, attempts, i, last, Begin);
    RetryCounts(attemptNo, sleep, attempts, i, last, Rollback);
    RetryCounts(attemptNo, sleep, attempts, i, last, Sleep);
  }

  lemma TailOfAppend(a: seq<Event>, b: seq<Event>)
    ensures |b| >= 3 ==> (a + b)[|a + b| - 3..] == b[|b| - 3..]
  {
    if |b| >= 3 {
      assert (a + b)[|a + b| - 3..] == (a + b)[|a| + |b| - 3..] == b[|b| - 3..];
    }
  }

  /**
   * If the first k attempts failed transiently and attempt k (within the bound)
   * does not, the run ends with attempt k: its result is returned, or what it threw
   * (`Thrown`) is rethrown. There were k + 1 begins, one rollBack per failed attempt, and one
   * sleep per retried attempt when the sleep is positive.
   */
  lemma EndsAtAttempt<R>(attemptNo: int, sleep: real, attempts: nat -> Attempt<R>, i: nat, last: Option<Failure>, k: nat)
    requires i <= k < attemptNo && RetriedUpTo(attempts, k)
    requires !Retried(attempts(k))
    ensures var (ending, trace) := Run(attemptNo, sleep, attempts, i, last);
      && ending == (if attempts(k).Succeeds? then Returned(attempts(k).result) else Rethrown(Thrown(attempts(k))))
      && Count(trace, Begin) == k - i + 1
      && Count(trace, Rollback) == k - i + (if attempts(k).Succeeds? then 0 else 1)
      && Count(trace, Sleep) == (if 0.0 < sleep then k - i else 0)
      && Count(trace, Call) == CallsIn(attempts, i, k + 1)
      && Count(trace, Commit) == CommitsIn(attempts, i, k + 1)
      && (attempts(k).Succeeds? ==> |trace| >= 3 && trace[|trace| - 3..] == [Begin, Call, Commit])
  {
    EndsAtAttemptRollbacks(attemptNo, sleep, attempts, i, last, k);
    CallsUpTo(attemptNo, sleep, attempts, i, last, k, Call);
    CallsUpTo(attemptNo, sleep, attempts, i, last, k, Commit);
    EndsWithAttempt(attemptNo, sleep, attempts, i, last, k);
  }

  /** The ending, begins, rollBacks and sleeps of `EndsAtAttempt`. */
  lemma {:induction false} EndsAtAttemptRollbacks<R>(attemptNo: int, sleep: real, attempts: nat -> Attempt<R>, i: nat, last: Option<Failure>, k: nat)
    requires i <= k < attemptNo && RetriedUpTo(attempts, k)
    requires !Retried(attempts(k))
    ensures var (ending, trace) := Run(attemptNo, sleep, attempts, i, last);
      && ending == (if attempts(k).Succeeds? then Returned(attempts(k).result) else Rethrown(Thrown(attempts(k))))
      && Count(trace, Begin) == k - i + 1
      && Count(trace, Rollback) == k - i + (if attempts(k).Succeeds? then 0 else 1)
      && Count(trace, Sleep) == (if 0.0 < sleep then k - i else 0)
    decreases k - i
  {
    if i < k {
      EndsAtAttemptRollbacks(attemptNo, sleep, attempts, i + 1, Some(attempts(i).failure), k);
      RetryAdds(attemptNo, sleep, attempts, i, last);
    } else {
      LastAttempt(attemptNo, sleep, attempts, i, last);
    }
  }

  /** Closure calls (e == Call) or commits (e == Commit) of a run ending at attempt k. */
  lemma {:induction false} CallsUpTo<R>(attemptNo: int, sleep: real, attempts: nat -> Attempt<R>, i: nat, last: Option<Failure>, k: nat, e: Event)
    requires i <= k < attemptNo && RetriedUpTo(attempts, k)
    requires !Retried(attempts(k))
    requires e == Call || e == Commit
    ensures Count(Run(attemptNo, sleep, attempts, i, last).1, e)
      == if e == Call then CallsIn(attempts, i, k + 1) else CommitsIn(attempts, i, k + 1)
    decreases k - i
  {
    var a := attempts(i);
    AttemptCounts(a, sleep);
    if i < k {
      CallsUpTo(attemptNo, sleep, attempts, i + 1, Some(a.failure), k, e);
      RetryCounts(attemptNo, sleep, attempts, i, last, e);
    } else {
      assert Run(attemptNo, sleep, attempts, i, last).1 == AttemptEvents(a);
    }
  }

  /** The events of the retried attempts i up to (excluding) k, each followed by its sleep. */
  function RetriedEvents<R>(attempts: nat -> Attempt<R>, sleep: real, i: nat, k: nat): seq<Event>
    decreases k - i
  {
    if k <= i then [] else AttemptEvents(attempts(i)) + SleepEvents(sleep) + RetriedEvents(attempts, sleep, i + 1, k)
  }

  /** A run ending at attempt k is the retried attempts' events, then attempt k's own. */
  lemma {:induction false} TraceUpTo<R>(attemptNo: int, sleep: real, attempts: nat -> Attempt<R>, i: nat, last: Option<Failure>, k: nat)
    requires i <= k < attemptNo && RetriedUpTo(attempts, k)
    requires !Retried(attempts(k))
    ensures Run(attemptNo, sleep, attempts, i, last).1 == RetriedEvents(attempts, sleep, i, k) + AttemptEvents(attempts(k))
    decreases k - i
  {
    if i < k {
      TraceUpTo(attemptNo, sleep, attempts, i + 1, Some(attempts(i).failure), k);
      TraceStep(attemptNo, sleep, attempts, i, last, k);
    } else {
      assert Run(attemptNo, sleep, attempts, i, last).1 == AttemptEvents(attempts(k));
      assert [] + AttemptEvents(attempts(k)) == AttemptEvents(attempts(k));
    }
  }

  /** One retried attempt in front of a run that ends at attempt k. */
  lemma TraceStep<R>(attemptNo: int, sleep: real, attempts: nat -> Attempt<R>, i: nat, last: Option<Failure>, k: nat)
    requires i < k && i < attemptNo && Retried(attempts(i))
    requires Run(attemptNo, sleep, attempts, i + 1, Some(attempts(i).failure)).1
      == RetriedEvents(attempts, sleep, i + 1, k) + AttemptEvents(attempts(k))
    ensures Run(attemptNo, sleep, attempts, i, last).1 == RetriedEvents(attempts, sleep, i, k) + AttemptEvents(attempts(k))
  {
    RetryStep(attemptNo, sleep, attempts, i, last);
    var head := AttemptEvents(attempts(i)) + SleepEvents(sleep);
    assert head + (RetriedEvents(attempts, sleep, i + 1, k) + AttemptEvents(attempts(k)))
      == (head + RetriedEvents(attempts, sleep, i + 1, k)) + AttemptEvents(attempts(k));
  }

  /** A run ending at attempt k ends with that attempt's own events. */
  lemma EndsWithAttempt<R>(attemptNo: int, sleep: real, attempts: nat -> Attempt<R>, i: nat, last: Option<Failure>, k: nat)
    requires i <= k < attemptNo && RetriedUpTo(attempts, k)
    requires !Retried(attempts(k))
    ensures var trace := Run(attemptNo, sleep, attempts, i, last).1;
      attempts(k).Succeeds? ==> |trace| >= 3 && trace[|trace| - 3..] == [Begin, Call, Commit]
  {
    TraceUpTo(attemptNo, sleep, attempts, i, last, k);
    TailOfAppend(RetriedEvents(attempts, sleep, i, k), AttemptEvents(attempts(k)));
  }

  /** An attempt that succeeds, or fails for good, ends the run with its own events alone. */
  lemma LastAttempt<R>(attemptNo: int, sleep: real, attempts: nat -> Attempt<R>, i: nat, last: Option<Failure>)
    requires i < attemptNo && !Retried(attempts(i))
    ensures var (ending, trace) := Run(attemptNo, sleep, attempts, i, last);
      && ending == (if attempts(i).Succeeds? then Returned(attempts(i).result) else Rethrown(Thrown(attempts(i))))
      && Count(trace, Begin) == 1
      && Count(trace, Rollback) == (if attempts(i).Succeeds? then 0 else 1)
      && Count(trace, Sleep) == 0
      && Count(trace, Call) == CallsOf(attempts(i))
      && Count(trace, Commit) == CommitsOf(attempts(i))
      && (attempts(i).Succeeds? ==> trace == [Begin, Call, Commit])
  {
    AttemptCounts(attempts(i), sleep);
    assert Run(attemptNo, sleep, attempts, i, last).1 == AttemptEvents(attempts(i));
  }

  /**
   * The closure failing transiently k times and then succeeding: k + 1 begins and
   * k + 1 closure calls, then exactly one commit, and the closure's result is
   * returned, the trace ending with that attempt's begin, call and commit.
   */
  lemma ClosureRetriesThenSuccess<R>(attemptNo: int, sleep: real, attempts: nat -> Attempt<R>, k: nat)
    requires k < attemptNo && attempts(k).Succeeds?
    requires forall j: nat :: j < k ==> attempts(j).Fails? && attempts(j).stage == InClosure && Retried(attempts(j))
    ensures var (ending, trace) := Run(attemptNo, sleep, attempts, 0, None);
      && ending == Returned(attempts(k).result)
      && Count(trace, Begin) == k + 1 && Count(trace, Call) == k + 1 && Count(trace, Commit) == 1
      && trace[|trace| - 3..] == [Begin, Call, Commit]
  {
    EndsAtAttempt(attemptNo, sleep, attempts, 0, None, k);
    ClosureTallies(attempts, 0, k);
  }

  /** Attempts failing in the closure call it once each and never commit. */
  lemma {:induction false} ClosureTallies<R>(attempts: nat -> Attempt<R>, i: nat, k: nat)
    requires i <= k && attempts(k).Succeeds?
    requires forall j: nat :: i <= j < k ==> attempts(j).Fails? && attempts(j).stage == InClosure
    ensures CallsIn(attempts, i, k + 1) == k - i + 1 && CommitsIn(attempts, i, k + 1) == 1
    decreases k - i
  {
    if i < k {
      ClosureTallies(attempts, i + 1, k);
    }
  }

  /**
   * When every attempt fails transiently, there are exactly attemptNo begins and
   * rollBacks and the last exception is rethrown.
   */
  lemma {:induction false} Exhausted<R>(attemptNo: int, sleep: real, attempts: nat -> Attempt<R>, i: nat, last: Option<Failure>)
    requires 0 < attemptNo && i <= attemptNo && RetriedUpTo(attempts, attemptNo)
    requires i > 0 ==> last == Some(attempts(i - 1).failure)
    ensures var (ending, trace) := Run(attemptNo, sleep, attempts, i, last);
      && ending == Rethrown(attempts(attemptNo - 1).failure)
      && Count(trace, Begin) == attemptNo - i
      && Count(trace, Rollback) == attemptNo - i
    decreases attemptNo - i
  {
    if i < attemptNo {
      var a := attempts(i);
      assert Retried(a);
      AttemptCounts(a, sleep);
      Exhausted(attemptNo, sleep, attempts, i + 1, Some(a.failure));
      RetryCounts(attemptNo, sleep, attempts, i, last, Begin);
      RetryCounts(attemptNo, sleep, attempts, i, last, Rollback);
    }
  }

  /** With attemptNo <= 0 the closure is never called and `throw null` is reached. */
  lemma NoAttempts<R>(attemptNo: int, sleep: real, attempts: nat -> Attempt<R>)
    requires attemptNo <= 0
    ensures Run(attemptNo, sleep, attempts, 0, None) == (ThrowsNull, [])
  {
  }

  /** No run makes more than attemptNo attempts. */
  lemma {:induction false} AttemptsBounded<R>(attemptNo: int, sleep: real, attempts: nat -> Attempt<R>, i: nat, last: Option<Failure>)
    ensures Count(Run(attemptNo, sleep, attempts, i, last).1, Begin) <= if i < attemptNo then attemptNo - i else 0
    decreases attemptNo - i
  {
    if i < attemptNo {
      var a := attempts(i);
      AttemptCounts(a, sleep);
      if Retried(a) {
        AttemptsBounded(attemptNo, sleep, attempts, i + 1, Some(a.failure));
        RetryCounts(attemptNo, sleep, attempts, i, last, Begin);
      }
    }
  }
}
