/** `renameWithWindowsRetry`: the same rename again while Windows denies it, inside a budget of time and attempts. */
module RenameRetry {
  import opened Options

  datatype Code = EPERM | EACCES | EBUSY | OtherCode
  datatype Error = Error(code: Code, message: string)

  /** What attempt number `k` meets: its outcome, the clock read after a failure, and the clock after the wait. */
  datatype Attempt = Attempt(failure: Option<Error>, failedAt: real, resumedAt: real)

  const BUDGET := 1000.0
  const MAX_ATTEMPTS := 12

  predicate Retryable(windows: bool, e: Error) {
    windows && e.code in {EPERM, EACCES, EBUSY}
  }

  function Min(a: real, b: real): real {
    if a <= b then a else b
  }

  function Doubled(n: nat): real {
    if n == 0 then 10.0 else 2.0 * Doubled(n - 1)
  }

  /** The wait asked for after failed attempt `n` (from 1), were there time without end. */
  function Nominal(n: nat): real
    requires n > 0
  {
    Min(Doubled(n - 1), 100.0)
  }

  /** The clock never goes back; nothing is assumed of how long a wait or a rename takes. */
  ghost predicate Monotone(start: real, env: nat -> Attempt) {
    && start <= env(1).failedAt
    && forall k: nat :: env(k).failedAt <= env(k).resumedAt <= env(k + 1).failedAt
  }

  /** When attempt `n` starts: the clock reading the loop last took. */
  function StartOf(start: real, env: nat -> Attempt, n: nat): real
    requires n > 0
  {
    if n == 1 then start else env(n - 1).resumedAt
  }

  // ----- the intended behaviour, without the loop

  /** Attempt `n` ends the whole: it succeeds, its error is final, or the budget of attempts or of time is spent. */
  predicate Ends(windows: bool, start: real, env: nat -> Attempt, n: nat) {
    var a := env(n);
    a.failure.None? || !Retryable(windows, a.failure.value) || n >= MAX_ATTEMPTS || a.resumedAt >= start + BUDGET
  }

  /** Attempt `n` is followed by a wait. */
  predicate Waits(windows: bool, start: real, env: nat -> Attempt, n: nat) {
    var a := env(n);
    a.failure.Some? && Retryable(windows, a.failure.value) && n < MAX_ATTEMPTS && a.failedAt < start + BUDGET
  }

  /** An attempt is followed by another only if Windows denied it with one of three codes, and 12 or 1,000 ms allow. */
  lemma RetriedIff(windows: bool, start: real, env: nat -> Attempt, n: nat)
    ensures !Ends(windows, start, env, n) <==>
            && windows && env(n).failure.Some?
            && env(n).failure.value.code != OtherCode
            && n < 12 && env(n).resumedAt < start + 1000.0
  {}

  /** The waits asked for: 10, 20, 40, 80, then 100 ms each, but never past the deadline. */
  lemma WaitInFigures(start: real, env: nat -> Attempt, n: nat)
    requires n > 0
    ensures var nominal := if n == 1 then 10.0 else if n == 2 then 20.0 else if n == 3 then 40.0
                           else if n == 4 then 80.0 else 100.0;
      Wait(start, env, n) == if nominal <= start + 1000.0 - env(n).failedAt then nominal
                             else start + 1000.0 - env(n).failedAt
  {
    assert Doubled(0) == 10.0 && Doubled(1) == 20.0 && Doubled(2) == 40.0 && Doubled(3) == 80.0;
    if n > 4 { DoublingPasses(n - 1); }
  }

  function Sum(waits: seq<real>): real {
    if waits == [] then 0.0 else Sum(waits[..|waits| - 1]) + waits[|waits| - 1]
  }

  function NominalSum(n: nat): real {
    if n == 0 then 0.0 else NominalSum(n - 1) + Nominal(n)
  }

  lemma DoublingPasses(n: nat)
    requires n >= 4
    ensures Nominal(n + 1) == 100.0 && Doubled(n) >= 100.0
    decreases n
  {
    if n > 4 { DoublingPasses(n - 1); } else { assert Doubled(3) == 80.0; assert Doubled(4) == 160.0; }
  }

  /** From the fifth on each wait is 100; the first four make 150. */
  lemma {:induction false} NominalTotal(n: nat)
    requires n >= 4
    ensures NominalSum(n) == 150.0 + 100.0 * (n - 4) as real
  {
    if n == 4 {
      assert Doubled(0) == 10.0 && Doubled(1) == 20.0 && Doubled(2) == 40.0 && Doubled(3) == 80.0;
      assert NominalSum(1) == 10.0 && NominalSum(2) == 30.0 && NominalSum(3) == 70.0;
    } else {
      NominalTotal(n - 1);
      DoublingPasses(n - 1);
    }
  }

  lemma {:induction false} NominalGrows(n: nat, m: nat)
    requires n <= m
    ensures NominalSum(n) <= NominalSum(m)
    decreases m - n
  {
    if n < m {
      NominalGrows(n, m - 1);
      DoubledPositive(m - 1);
    }
  }

  lemma {:induction false} DoubledPositive(n: nat)
    ensures Doubled(n) >= 10.0
  {
    if n > 0 { DoubledPositive(n - 1); }
  }

  predicate Bounded(waits: seq<real>) {
    forall k :: 0 <= k < |waits| ==> 0.0 < waits[k] <= Nominal(k + 1)
  }

  lemma {:induction false} SumBound(waits: seq<real>)
    requires Bounded(waits)
    ensures Sum(waits) <= NominalSum(|waits|)
  {
    if waits != [] {
      SumBound(waits[..|waits| - 1]);
    }
  }

  /** However an attempt history goes, its waits come to 850 ms at the most. */
  lemma WaitsAreShort(waits: seq<real>)
    requires Bounded(waits) && |waits| < MAX_ATTEMPTS
    ensures Sum(waits) <= 850.0
  {
    SumBound(waits);
    NominalGrows(|waits|, 11);
    NominalTotal(11);
  }

  /** The bound is met: eleven waits that the deadline never shortens. */
  lemma EightFiftyIsReached()
    ensures NominalSum(11) == 850.0
  {
    NominalTotal(11);
  }

  function Wait(start: real, env: nat -> Attempt, n: nat): real
    requires n > 0
  {
    Min(Nominal(n), start + BUDGET - env(n).failedAt)
  }

  /** Every attempt before number `n` failed, was worth repeating, and left time for the next. */
  predicate NoneEnds(windows: bool, start: real, env: nat -> Attempt, n: nat) {
    forall k :: 1 <= k < n ==> !Ends(windows, start, env, k)
  }

  /** The waits asked for, attempt by attempt: each positive, and over by the deadline. */
  predicate Asked(start: real, env: nat -> Attempt, waits: seq<real>) {
    forall k :: 0 <= k < |waits| ==>
      waits[k] == Wait(start, env, k + 1) && 0.0 < waits[k] && env(k + 1).failedAt + waits[k] <= start + BUDGET
  }

  lemma AskedIsShort(start: real, env: nat -> Attempt, waits: seq<real>)
    requires Asked(start, env, waits) && |waits| < MAX_ATTEMPTS
    ensures Sum(waits) <= 850.0
  {
    WaitsAreShort(waits);
  }

  lemma AskedMore(windows: bool, start: real, env: nat -> Attempt, waits: seq<real>)
    requires Asked(start, env, waits) && Waits(windows, start, env, |waits| + 1)
    ensures Asked(start, env, waits + [Wait(start, env, |waits| + 1)])
  {
    DoubledPositive(|waits|);
  }

  /** Attempts after the first start inside the budget. */
  lemma StartsInTime(windows: bool, start: real, env: nat -> Attempt, n: nat, k: nat)
    requires NoneEnds(windows, start, env, n) && 2 <= k <= n
    ensures StartOf(start, env, k) < start + 1000.0
  {
    assert !Ends(windows, start, env, k - 1);
  }

  /**
   The loop stops at the first attempt that ends it and reports that attempt's own outcome. Off Windows that
   is the first; every wait asked for ends by the deadline, and together they come to 850 ms at the most.
   */
  method RenameWithWindowsRetry(windows: bool, start: real, env: nat -> Attempt)
    returns (attempts: nat, waits: seq<real>, thrown: Option<Error>)
    requires Monotone(start, env)
    ensures 1 <= attempts <= 12 && (!windows ==> attempts == 1)
    ensures Ends(windows, start, env, attempts) && NoneEnds(windows, start, env, attempts)
    ensures thrown == env(attempts).failure
    ensures |waits| == attempts - (if Waits(windows, start, env, attempts) then 0 else 1)
    ensures Asked(start, env, waits) && Sum(waits) <= 850.0
  {
    var deadline := start + BUDGET;
    var pause := 10.0;
    attempts, waits, thrown := 1, [], None;
    while true
      invariant 1 <= attempts <= MAX_ATTEMPTS && (attempts > 1 ==> windows) && |waits| == attempts - 1
      invariant pause == Doubled(attempts - 1)
      invariant NoneEnds(windows, start, env, attempts) && Asked(start, env, waits)
      decreases MAX_ATTEMPTS - attempts
    {
      var met := env(attempts);
      thrown := met.failure;
      if thrown.None? { break; }
      if !windows || thrown.value.code !in {EPERM, EACCES, EBUSY} || attempts >= MAX_ATTEMPTS { break; }
      var remaining := deadline - met.failedAt;
      if remaining <= 0.0 { break; }
      AskedMore(windows, start, env, waits);
      waits := waits + [Min(Min(pause, 100.0), remaining)];
      if met.resumedAt >= deadline { break; }
      attempts, pause := attempts + 1, pause * 2.0;
    }
    AskedIsShort(start, env, waits);
  }
}
