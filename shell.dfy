/**
 * Running shell commands: execute (the same function in onefold_util.py
 * and generate_schema.py) and execute_and_read_with_retry. What a command
 * does is abstracted as the outcome of each attempt; the sleeps are the
 * durations the code computes, and random.randint is an input.
 */
module Shell {
  import opened Text

  /** What subprocess.call gives for one attempt: a return code, or an exception it raised. */
  datatype Outcome = Returned(rc: int) | Raised(message: string)

  /** A value of random.randint(0, 1000). */
  type Draw = d: int | 0 <= d <= 1000

  /** One call of execute: the command and its ignore_error and retry flags. */
  datatype Command = Command(text: string, ignoreError: bool, retry: bool)

  /** num_retries */
  function NumRetries(retry: bool): nat
  {
    if retry then 5 else 1
  }

  function Pow2(n: nat): nat
  {
    if n == 0 then 1 else 2 * Pow2(n - 1)
  }

  /** (2 ** n) + random.randint(0, 1000) / 1000, with Python 2 integer division. */
  function Backoff(n: nat, d: Draw): nat
  {
    Pow2(n) + d / 1000
  }

  /** The backoff after attempt n is 2^n, or 2^n + 1 when the draw is 1000. */
  lemma BackoffValues(n: nat, d: Draw)
    ensures Backoff(n, d) == Pow2(n) || Backoff(n, d) == Pow2(n) + 1
    ensures Backoff(n, d) == Pow2(n) + 1 <==> d == 1000
  {
  }

  /** An attempt returns from execute when the command exited with 0, or with anything while errors are ignored. */
  predicate Succeeds(o: Outcome, ignoreError: bool)
  {
    o.Returned? && (o.rc == 0 || ignoreError)
  }

  /** The exception a failed attempt raises inside the try block. */
  function Failure(command: string, o: Outcome): string
  {
    match o
    case Returned(_) => "Error executing command: " + command
    case Raised(m) => m
  }

  const RetriesExceeded := "Retries exceeded (5 times) when executing this command."

  /** What one call of execute did: its result, how many attempts it made and the sleeps between them. */
  datatype Run = Run(result: Result<()>, attempts: nat, sleeps: seq<nat>)

  /**
   * execute from attempt n on, after the sleeps in slept: return at the
   * first attempt that succeeds; re-raise a failure without retry; with
   * retry, sleep and go on, and raise once the attempts are used up.
   */
  function ExecuteFrom(c: Command, outcome: nat -> Outcome, draw: nat -> Draw, n: nat, slept: seq<nat>): Run
    requires n <= NumRetries(c.retry)
    decreases NumRetries(c.retry) - n
  {
    if n == NumRetries(c.retry) then
      Run(if c.retry then Err(RetriesExceeded) else Ok(()), n, slept)
    else if Succeeds(outcome(n), c.ignoreError) then Run(Ok(()), n + 1, slept)
    else if !c.retry then Run(Err(Failure(c.text, outcome(n))), n + 1, slept)
    else ExecuteFrom(c, outcome, draw, n + 1, slept + [Backoff(n, draw(n))])
  }

  function Execute(c: Command, outcome: nat -> Outcome, draw: nat -> Draw): Run
  {
    ExecuteFrom(c, outcome, draw, 0, [])
  }

  /** execute: attempt n runs with outcome(n); the sleep after it draws draw(n). */
  method ExecuteCommand(c: Command, outcome: nat -> Outcome, draw: nat -> Draw)
    returns (r: Result<()>, attempts: nat, sleeps: seq<nat>)
    ensures Run(r, attempts, sleeps) == Execute(c, outcome, draw)
  {
    var numRetries := if c.retry then 5 else 1;
    sleeps := [];
    var n := 0;
    while n < numRetries
      invariant 0 <= n <= numRetries == NumRetries(c.retry)
      invariant Execute(c, outcome, draw) == ExecuteFrom(c, outcome, draw, n, sleeps)
      invariant n > 0 ==> c.retry
    {
      var o := outcome(n);
      if o.Returned? && (o.rc == 0 || c.ignoreError) {
        return Ok(()), n + 1, sleeps;
      }
      if !c.retry {
        return Err(Failure(c.text, o)), n + 1, sleeps;
      }
      sleeps := sleeps + [Pow2(n) + draw(n) / 1000];
      n := n + 1;
    }
    attempts := n;
    if c.retry {
      r := Err(RetriesExceeded);
    } else {
      r := Ok(());
    }
  }

  /** No attempt from lo up to hi succeeds. */
  ghost predicate AllFail(c: Command, outcome: nat -> Outcome, lo: nat, hi: nat)
  {
    forall j :: lo <= j < hi ==> !Succeeds(outcome(j), c.ignoreError)
  }

  /** The sleeps after attempts lo .. hi-1. */
  function Backoffs(draw: nat -> Draw, lo: nat, hi: nat): (r: seq<nat>)
    requires lo <= hi
    ensures |r| == hi - lo
    ensures forall i :: 0 <= i < hi - lo ==> r[i] == Backoff(lo + i, draw(lo + i))
    decreases hi - lo
  {
    if lo == hi then [] else [Backoff(lo, draw(lo))] + Backoffs(draw, lo + 1, hi)
  }

  /** Each sleep after attempt i lasts 2^i or 2^i + 1 seconds. */
  lemma BackoffsValues(draw: nat -> Draw, hi: nat)
    ensures forall i :: 0 <= i < hi ==> Backoffs(draw, 0, hi)[i] == Pow2(i) || Backoffs(draw, 0, hi)[i] == Pow2(i) + 1
  {
    forall i | 0 <= i < hi
      ensures Backoffs(draw, 0, hi)[i] == Pow2(i) || Backoffs(draw, 0, hi)[i] == Pow2(i) + 1
    {
      BackoffValues(i, draw(i));
    }
  }

  /** With retry and attempt k the first to succeed from n on, execute returns after it, having slept after each of n .. k-1. */
  lemma {:induction false} RetryReturnsAtFirstSuccess(c: Command, outcome: nat -> Outcome, draw: nat -> Draw,
                                                      n: nat, k: nat, slept: seq<nat>)
    requires c.retry && n <= k < 5
    requires Succeeds(outcome(k), c.ignoreError) && AllFail(c, outcome, n, k)
    ensures ExecuteFrom(c, outcome, draw, n, slept) == Run(Ok(()), k + 1, slept + Backoffs(draw, n, k))
    decreases k - n
  {
    if n < k {
      var b := Backoff(n, draw(n));
      RetryReturnsAtFirstSuccess(c, outcome, draw, n + 1, k, slept + [b]);
      assert Backoffs(draw, n, k) == [b] + Backoffs(draw, n + 1, k);
      assert slept + [b] + Backoffs(draw, n + 1, k) == slept + ([b] + Backoffs(draw, n + 1, k));
    }
  }

  /** With retry and no attempt from n on succeeding, execute sleeps after each and raises "Retries exceeded". */
  lemma {:induction false} RetryExhausted(c: Command, outcome: nat -> Outcome, draw: nat -> Draw,
                                          n: nat, slept: seq<nat>)
    requires c.retry && n <= 5
    requires AllFail(c, outcome, n, 5)
    ensures ExecuteFrom(c, outcome, draw, n, slept) == Run(Err(RetriesExceeded), 5, slept + Backoffs(draw, n, 5))
    decreases 5 - n
  {
    if n < 5 {
      var b := Backoff(n, draw(n));
      RetryExhausted(c, outcome, draw, n + 1, slept + [b]);
      assert Backoffs(draw, n, 5) == [b] + Backoffs(draw, n + 1, 5);
      assert slept + [b] + Backoffs(draw, n + 1, 5) == slept + ([b] + Backoffs(draw, n + 1, 5));
    }
  }

  /**
   * execute returns right after the first attempt that succeeds, having
   * slept once after each failed attempt before it.
   */
  lemma ExecuteReturnsAtFirstSuccess(c: Command, outcome: nat -> Outcome, draw: nat -> Draw, k: nat)
    requires k < NumRetries(c.retry)
    requires Succeeds(outcome(k), c.ignoreError) && AllFail(c, outcome, 0, k)
    ensures Execute(c, outcome, draw) == Run(Ok(()), k + 1, Backoffs(draw, 0, k))
  {
    if c.retry {
      RetryReturnsAtFirstSuccess(c, outcome, draw, 0, k, []);
    }
  }

  /**
   * When no attempt succeeds: without retry the first failure is re-raised
   * after one attempt; with retry execute makes five, sleeps after each
   * (the last one too) and raises "Retries exceeded".
   */
  lemma ExecuteFailsWithoutSuccess(c: Command, outcome: nat -> Outcome, draw: nat -> Draw)
    requires AllFail(c, outcome, 0, NumRetries(c.retry))
    ensures Execute(c, outcome, draw) ==
              if c.retry then Run(Err(RetriesExceeded), 5, Backoffs(draw, 0, 5))
              else Run(Err(Failure(c.text, outcome(0))), 1, [])
  {
    if c.retry {
      RetryExhausted(c, outcome, draw, 0, []);
    } else {
      assert !Succeeds(outcome(0), c.ignoreError);
    }
  }

  /** execute succeeds iff one of its one (or, with retry, five) attempts does. */
  lemma ExecuteSucceedsIff(c: Command, outcome: nat -> Outcome, draw: nat -> Draw)
    ensures Execute(c, outcome, draw).result.Ok? <==>
            exists k :: 0 <= k < NumRetries(c.retry) && Succeeds(outcome(k), c.ignoreError)
  {
    if k :| 0 <= k < NumRetries(c.retry) && Succeeds(outcome(k), c.ignoreError) {
      var f := FirstSuccessExists(c, outcome, k);
      ExecuteReturnsAtFirstSuccess(c, outcome, draw, f);
    } else {
      ExecuteFailsWithoutSuccess(c, outcome, draw);
    }
  }

  /** When attempt k succeeds, some attempt up to k is the first to. */
  lemma {:induction false} FirstSuccessExists(c: Command, outcome: nat -> Outcome, k: nat) returns (f: nat)
    requires Succeeds(outcome(k), c.ignoreError)
    ensures f <= k && Succeeds(outcome(f), c.ignoreError) && AllFail(c, outcome, 0, f)
  {
    if j :| 0 <= j < k && Succeeds(outcome(j), c.ignoreError) {
      f := FirstSuccessExists(c, outcome, j);
    } else {
      f := k;
    }
  }

  // ---------------------------------------------------------------------------
  // execute_and_read_with_retry
  // ---------------------------------------------------------------------------

  /** What execute_and_read returns: the return code and the lines of stdout and stderr. */
  datatype Reading = Reading(rc: int, stdout: seq<string>, stderr: seq<string>)

  datatype ReadRun = ReadRun(result: Result<Reading>, attempts: nat, sleeps: seq<nat>)

  /**
   * The five-attempt loop from attempt n on: stop at the first return code
   * 0, sleep after every other one (the fifth too), and return the last
   * reading; an exception of execute_and_read propagates.
   */
  function ReadFrom(read: nat -> Result<Reading>, draw: nat -> Draw, n: nat, slept: seq<nat>): ReadRun
    requires n < 5
    decreases 5 - n
  {
    match read(n)
    case Err(e) => ReadRun(Err(e), n + 1, slept)
    case Ok(rd) =>
      if rd.rc == 0 then ReadRun(Ok(rd), n + 1, slept)
      else if n == 4 then ReadRun(Ok(rd), 5, slept + [Backoff(n, draw(n))])
      else ReadFrom(read, draw, n + 1, slept + [Backoff(n, draw(n))])
  }

  /** execute_and_read_with_retry: attempt n's execute_and_read gives read(n). */
  method ExecuteAndReadWithRetry(read: nat -> Result<Reading>, draw: nat -> Draw)
    returns (r: Result<Reading>, attempts: nat, sleeps: seq<nat>)
    ensures ReadRun(r, attempts, sleeps) == ReadFrom(read, draw, 0, [])
  {
    sleeps := [];
    var last := Reading(0, [], []);
    var n := 0;
    while n < 5
      invariant 0 <= n <= 5
      invariant n < 5 ==> ReadFrom(read, draw, 0, []) == ReadFrom(read, draw, n, sleeps)
      invariant n == 5 ==> ReadFrom(read, draw, 0, []) == ReadRun(Ok(last), 5, sleeps)
    {
      var rd := read(n);
      if rd.Err? {
        return Err(rd.error), n + 1, sleeps;
      }
      last := rd.value;
      if last.rc == 0 {
        return Ok(last), n + 1, sleeps;
      }
      ReadFromAfterFailure(read, draw, n, sleeps);
      sleeps := sleeps + [Pow2(n) + draw(n) / 1000];
      n := n + 1;
    }
    return Ok(last), n, sleeps;
  }

  /** After a failed attempt n the loop sleeps, then tries attempt n + 1 or, after attempt 4, returns. */
  lemma ReadFromAfterFailure(read: nat -> Result<Reading>, draw: nat -> Draw, n: nat, slept: seq<nat>)
    requires n < 5 && read(n).Ok? && read(n).value.rc != 0
    ensures n < 4 ==> ReadFrom(read, draw, n, slept) == ReadFrom(read, draw, n + 1, slept + [Backoff(n, draw(n))])
    ensures n == 4 ==> ReadFrom(read, draw, n, slept) == ReadRun(read(n), 5, slept + [Backoff(n, draw(n))])
  {
  }

  /**
   * execute_and_read_with_retry runs at most five times, stops at the first
   * return code 0, and returns the reading of its last run.
   */
  lemma ReadFromOutcome(read: nat -> Result<Reading>, draw: nat -> Draw, n: nat, slept: seq<nat>)
    requires n < 5
    ensures var run := ReadFrom(read, draw, n, slept);
            n < run.attempts <= 5 && run.result == read(run.attempts - 1)
    ensures var run := ReadFrom(read, draw, n, slept);
            forall j :: n <= j < run.attempts - 1 ==> read(j).Ok? && read(j).value.rc != 0
    ensures var run := ReadFrom(read, draw, n, slept);
            run.result.Ok? && run.result.value.rc == 0 ==> run.sleeps == slept + Backoffs(draw, n, run.attempts - 1)
  {
    ReadFromStops(read, draw, n, slept);
    ReadFromSleeps(read, draw, n, slept);
  }

  /** The attempts and the returned reading: the loop stops at the first success or error, or after attempt 4. */
  lemma {:induction false} ReadFromStops(read: nat -> Result<Reading>, draw: nat -> Draw, n: nat, slept: seq<nat>)
    requires n < 5
    ensures var run := ReadFrom(read, draw, n, slept);
            n < run.attempts <= 5 && run.result == read(run.attempts - 1) &&
            forall j :: n <= j < run.attempts - 1 ==> read(j).Ok? && read(j).value.rc != 0
    decreases 5 - n
  {
    if read(n).Ok? && read(n).value.rc != 0 && n < 4 {
      var next := slept + [Backoff(n, draw(n))];
      ReadFromStops(read, draw, n + 1, next);
      assert ReadFrom(read, draw, n, slept) == ReadFrom(read, draw, n + 1, next);
    }
  }

  /** A run that ends in success slept once after each failed attempt before it. */
  lemma {:induction false} ReadFromSleeps(read: nat -> Result<Reading>, draw: nat -> Draw, n: nat, slept: seq<nat>)
    requires n < 5
    ensures var run := ReadFrom(read, draw, n, slept);
            n < run.attempts && (run.result.Ok? && run.result.value.rc == 0 ==> run.sleeps == slept + Backoffs(draw, n, run.attempts - 1))
    decreases 5 - n
  {
    if read(n).Ok? && read(n).value.rc != 0 && n < 4 {
      var b := Backoff(n, draw(n));
      ReadFromSleeps(read, draw, n + 1, slept + [b]);
      var run := ReadFrom(read, draw, n + 1, slept + [b]);
      assert ReadFrom(read, draw, n, slept) == run;
      if run.result.Ok? && run.result.value.rc == 0 {
        var tail := Backoffs(draw, n + 1, run.attempts - 1);
        assert Backoffs(draw, n, run.attempts - 1) == [b] + tail;
        assert slept + [b] + tail == slept + ([b] + tail);
      }
    }
  }
}
