/** The retry loop around a message handler (lib/worker/kafka/consumer.go). */
module Retrying {

  /** Durations in nanoseconds, as in Go. */
  const SECOND := 1_000_000_000
  const MINUTE := 60 * SECOND

  datatype Result = Done | Erred | TimedOut

  /** A monotone clock; sleeping takes at least as long as asked. */
  class Clock {
    var now: int
    /** The pauses that were asked for. */
    ghost var slept: seq<nat>

    method Sleep(d: nat)
      modifies this
      ensures now >= old(now) + d && slept == old(slept) + [d]
    {
      var extra: nat :| true;
      now := now + d + extra;
      slept := slept + [d];
    }
  }

  /** A handler, remembering the outcome of each run and how long it was waited for. */
  class Handler {
    var runs: seq<Result>
    ghost var took: seq<nat>

    /** useFunctionWithTimeout: the handler's own result, or a timeout when it takes too long. */
    method Run(clock: Clock, timeout: nat) returns (r: Result)
      modifies this, clock
      ensures clock.now >= old(clock.now) && clock.slept == old(clock.slept)
      ensures runs == old(runs) + [r] && took == old(took) + [clock.now - old(clock.now)]
      ensures if r == TimedOut then clock.now == old(clock.now) + timeout else clock.now <= old(clock.now) + timeout
    {
      var needs: nat, succeeds: bool := *, *;
      if needs > timeout {
        clock.now, took := clock.now + timeout, took + [timeout];
        r := TimedOut;
      } else {
        clock.now, took := clock.now + needs, took + [needs];
        r := if succeeds then Done else Erred;
      }
      runs := runs + [r];
    }
  }

  /** The sum of the first n waits. */
  function Waits(wait: nat -> nat, n: nat): nat {
    if n == 0 then 0 else Waits(wait, n - 1) + wait(n)
  }

  /** Between the runs it slept, n-th time as long as the n-th wait says, and perhaps once more at the end. */
  ghost predicate WaitedAsAsked(slept: seq<nat>, wait: nat -> nat, runs: nat) {
    && |slept| <= runs <= |slept| + 1
    && forall j | 0 <= j < |slept| :: slept[j] == wait(j + 1)
  }

  /** No run is waited for longer than a minute, and one that timed out was waited for that long. */
  ghost predicate MinuteEach(runs: seq<Result>, took: seq<nat>) {
    && |took| == |runs|
    && forall j | 0 <= j < |runs| :: took[j] <= MINUTE && (runs[j] == TimedOut ==> took[j] == MINUTE)
  }

  /** Runs the handler until it succeeds, times out or the time is up.  Between two runs it waits,
      so the waits before the last run all fit into the limit; only plain errors are retried. */
  method Retry(handler: Handler, clock: Clock, wait: nat -> nat, timeout: nat) returns (err: Result)
    requires handler.runs == [] && handler.took == [] && clock.slept == [] && forall n :: n >= 1 ==> wait(n) > 0
    modifies handler, clock
    ensures err == Erred && handler.runs != [] ==> clock.now - old(clock.now) + wait(|handler.runs|) >= timeout
    ensures WaitedAsAsked(clock.slept, wait, |handler.runs|) && (err != Erred ==> |clock.slept| == |handler.runs| - 1)
    ensures MinuteEach(handler.runs, handler.took)
    ensures handler.runs != [] ==> Waits(wait, |handler.runs| - 1) < timeout
    ensures handler.runs != [] ==> err == handler.runs[|handler.runs| - 1]
    ensures handler.runs == [] ==> err == Erred && timeout == 0
    ensures forall i | 0 <= i < |handler.runs| - 1 :: handler.runs[i] == Erred
  {
    err := Erred;
    var start := clock.now;
    var i: nat := 1;
    while err != Done && clock.now - start < timeout
      invariant i == |handler.runs| + 1 && start <= clock.now
      invariant err != Done ==> err == Erred && clock.now - start >= Waits(wait, |handler.runs|)
      invariant handler.runs == [] ==> err == Erred && clock.now == start
      invariant handler.runs != [] ==> err == handler.runs[|handler.runs| - 1]
      invariant handler.runs != [] ==> Waits(wait, |handler.runs| - 1) < timeout
      invariant forall j | 0 <= j < |handler.runs| - 1 :: handler.runs[j] == Erred
      invariant forall j | 0 <= j < |clock.slept| :: clock.slept[j] == wait(j + 1)
      invariant |clock.slept| == if err == Done then |handler.runs| - 1 else |handler.runs|
      invariant MinuteEach(handler.runs, handler.took)
      decreases err != Done, timeout - (clock.now - start)
    {
      err := handler.Run(clock, MINUTE);
      if err == TimedOut {
        return;
      }
      if err != Done {
        var pause := wait(i);
        if clock.now - start + pause < timeout {
          clock.Sleep(pause);
        } else {
          return;
        }
      }
      i := i + 1;
    }
  }

  /** The consumers' wait before the next run: n seconds after the n-th. */
  function Linear(n: nat): nat {
    n * SECOND
  }

  lemma {:induction false} LinearWaits(n: nat)
    ensures 2 * Waits(Linear, n) == n * (n + 1) * SECOND
  {
    if n > 0 {
      LinearWaits(n - 1);
    }
  }

  /** With linear waits and ten minutes there is room for 35 runs and for no more. */
  lemma ThirtyFiveRuns(k: nat)
    requires k >= 1
    ensures Waits(Linear, k - 1) < 10 * MINUTE <==> k <= 35
  {
    LinearWaits(34);
    LinearWaits(35);
    if k <= 35 {
      WaitsGrow(k - 1, 34);
    } else {
      WaitsGrow(35, k - 1);
    }
  }

  lemma {:induction false} WaitsGrow(m: nat, n: nat)
    requires m <= n
    ensures Waits(Linear, m) <= Waits(Linear, n)
  {
    if m < n {
      WaitsGrow(m, n - 1);
    }
  }

  /** Another pause, a second longer for each run, would have gone past the ten minutes. */
  predicate GivenUpInTime(elapsed: int, runs: nat) {
    elapsed + runs * SECOND >= 600 * SECOND
  }

  /** One turn of the consumer loop for a fetched message: its offset is committed exactly when the
      last run of the handler succeeded; otherwise the error handler is called.  A handler that only errs
      is given up when the ten minutes leave no room for another pause. */
  method HandleMessage(handler: Handler, clock: Clock) returns (commit: bool)
    requires handler.runs == [] && handler.took == [] && clock.slept == []
    modifies handler, clock
    ensures 1 <= |handler.runs| <= 35
    ensures commit <==> handler.runs[|handler.runs| - 1] == Done
    ensures forall i | 0 <= i < |handler.runs| - 1 :: handler.runs[i] == Erred
    ensures handler.runs[|handler.runs| - 1] == Erred ==> GivenUpInTime(clock.now - old(clock.now), |handler.runs|)
    ensures WaitedAsAsked(clock.slept, Linear, |handler.runs|) && MinuteEach(handler.runs, handler.took)
  {
    var err := Retry(handler, clock, Linear, 10 * MINUTE);
    commit := err == Done;
    ThirtyFiveRuns(|handler.runs|);
  }
}
