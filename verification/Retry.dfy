/** Exponential backoff with integer delays and multipliers, without jitter. */
module Retry {

  datatype Config = Config(maxRetries: int, initialBackoff: nat, maxBackoff: nat, multiplier: nat)

  /** How a call of the retried function ends. */
  datatype Outcome = Success | Retryable | Permanent

  /** The result of Retry: nil, an error that is not retried, a cancelled context, or all attempts used up. */
  datatype Result = Nil | NotRetried | ContextDone | Exhausted

  function Min(a: nat, b: nat): nat {
    if a <= b then a else b
  }

  function Pow(b: nat, e: nat): nat {
    if e == 0 then 1 else b * Pow(b, e - 1)
  }

  /** CalculateBackoff. */
  function CalculateBackoff(attempt: nat, c: Config): nat {
    Min(c.initialBackoff * Pow(c.multiplier, attempt), c.maxBackoff)
  }

  /** The delay that the loop waits after the given attempt. */
  function LoopBackoff(attempt: nat, c: Config): nat {
    if attempt == 0 then c.initialBackoff else Min(LoopBackoff(attempt - 1, c) * c.multiplier, c.maxBackoff)
  }

  function TotalWait(attempts: nat, c: Config): nat {
    if attempts == 0 then 0 else TotalWait(attempts - 1, c) + LoopBackoff(attempts - 1, c)
  }

  function GeometricSum(attempts: nat, c: Config): nat {
    if attempts == 0 then 0
    else GeometricSum(attempts - 1, c) + c.initialBackoff * Pow(c.multiplier, attempts - 1)
  }

  lemma TimesGrows(x: nat, y: nat, m: nat)
    requires x <= y && m >= 1
    ensures x <= x * m <= y * m
  {}

  lemma MinTimes(x: nat, cap: nat, m: nat)
    requires m >= 1
    ensures Min(Min(x, cap) * m, cap) == Min(x * m, cap)
  {
    if x > cap {
      TimesGrows(cap, x, m);
    }
  }

  lemma Regroup(i: nat, x: nat, m: nat)
    ensures i * x * m == i * (m * x)
  {}

  lemma {:induction false} LaterBackoffsAgree(attempt: nat, c: Config)
    requires c.multiplier >= 1 && (attempt >= 1 || c.initialBackoff <= c.maxBackoff)
    ensures LoopBackoff(attempt, c) == CalculateBackoff(attempt, c)
  {
    var i, m := c.initialBackoff, c.multiplier;
    if attempt == 1 {
      assert Pow(m, 1) == m * Pow(m, 0) == m;
    } else if attempt > 1 {
      LaterBackoffsAgree(attempt - 1, c);
      MinTimes(i * Pow(m, attempt - 1), c.maxBackoff, m);
      Regroup(i, Pow(m, attempt - 1), m);
    }
  }

  /** The loop waits what CalculateBackoff says, for every attempt, exactly when the first delay is within the cap. */
  lemma BackoffsAgreeIff(c: Config)
    requires c.multiplier >= 1
    ensures (forall k: nat :: LoopBackoff(k, c) == CalculateBackoff(k, c)) <==> c.initialBackoff <= c.maxBackoff
  {
    if c.initialBackoff <= c.maxBackoff {
      forall k: nat ensures LoopBackoff(k, c) == CalculateBackoff(k, c) {
        LaterBackoffsAgree(k, c);
      }
    } else {
      assert Pow(c.multiplier, 0) == 1;
      assert LoopBackoff(0, c) != CalculateBackoff(0, c);
    }
  }

  /** The waits of any number of attempts stay below both the capped and the geometric sum. */
  lemma {:induction false} TotalWaitBounds(attempts: nat, c: Config)
    requires c.multiplier >= 1 && c.initialBackoff <= c.maxBackoff
    ensures TotalWait(attempts, c) <= attempts * c.maxBackoff
    ensures TotalWait(attempts, c) <= GeometricSum(attempts, c)
  {
    if attempts > 0 {
      TotalWaitBounds(attempts - 1, c);
      LaterBackoffsAgree(attempts - 1, c);
      assert attempts * c.maxBackoff == (attempts - 1) * c.maxBackoff + c.maxBackoff;
    }
  }

  lemma {:induction false} PowGrows(m: nat, e: nat)
    requires m >= 1
    ensures Pow(m, e) >= 1 && Pow(m, e) <= Pow(m, e + 1)
  {
    if e > 0 {
      PowGrows(m, e - 1);
      TimesGrows(1, Pow(m, e - 1), m);
    }
    TimesGrows(1, Pow(m, e), m);
  }

  lemma Scaled(i: nat, a: nat, b: nat)
    requires a <= b
    ensures i * a <= i * b
  {}

  /** The total wait is the geometric sum exactly as long as no delay meets the cap. */
  lemma {:induction false} TotalWaitIsGeometricIff(attempts: nat, c: Config)
    requires c.multiplier >= 1 && c.initialBackoff <= c.maxBackoff
    ensures TotalWait(attempts, c) == GeometricSum(attempts, c) <==>
      attempts == 0 || c.initialBackoff * Pow(c.multiplier, attempts - 1) <= c.maxBackoff
  {
    if attempts > 0 {
      TotalWaitIsGeometricIff(attempts - 1, c);
      TotalWaitBounds(attempts - 1, c);
      LaterBackoffsAgree(attempts - 1, c);
      if attempts > 1 {
        PowGrows(c.multiplier, attempts - 2);
        Scaled(c.initialBackoff, Pow(c.multiplier, attempts - 2), Pow(c.multiplier, attempts - 1));
      }
    }
  }

  /** From the first capped delay on, every further attempt waits the cap. */
  lemma CappedWaits(attempts: nat, c: Config)
    requires c.multiplier >= 1 && c.initialBackoff <= c.maxBackoff
    requires c.initialBackoff * Pow(c.multiplier, attempts) >= c.maxBackoff
    ensures TotalWait(attempts + 1, c) == TotalWait(attempts, c) + c.maxBackoff
  {
    LaterBackoffsAgree(attempts, c);
  }

  lemma GrowOnce(i: nat, m: nat, p: nat)
    requires m >= 1
    ensures i * (p - 1) + i * p * (m - 1) == i * (m * p - 1)
  {
    assert i * p * (m - 1) == i * (p * (m - 1)) == i * (p * m - p);
    assert i * (p - 1) + i * (p * m - p) == i * (p - 1 + p * m - p);
  }

  /** The geometric sum in closed form. */
  lemma {:induction false} GeometricSumIs(attempts: nat, c: Config)
    requires c.multiplier >= 1
    ensures GeometricSum(attempts, c) * (c.multiplier - 1) == c.initialBackoff * (Pow(c.multiplier, attempts) - 1)
  {
    var i, m := c.initialBackoff, c.multiplier;
    if attempts > 0 {
      GeometricSumIs(attempts - 1, c);
      var p := Pow(m, attempts - 1);
      assert (GeometricSum(attempts - 1, c) + i * p) * (m - 1) == GeometricSum(attempts - 1, c) * (m - 1) + i * p * (m - 1);
      GrowOnce(i, m, p);
    }
  }

  /**
    Retry. outcomes says how the k-th call of the function ends, cancelled whether the context is done before the
    k-th wait is over. calls is the number of calls made and waited the sum of the delays that ran out.
   */
  method Run(c: Config, outcomes: nat -> Outcome, cancelled: nat -> bool)
      returns (result: Result, calls: nat, waited: nat)
    ensures c.maxRetries < 0 ==> calls == 0 && result == Exhausted
    ensures c.maxRetries >= 0 ==> 1 <= calls <= c.maxRetries + 1
    ensures forall k: nat | k + 1 < calls :: outcomes(k) == Retryable && !cancelled(k)
    ensures calls > 0 ==>
      && (result == Nil <==> outcomes(calls - 1) == Success)
      && (result == NotRetried <==> outcomes(calls - 1) == Permanent)
      && (result == Exhausted <==> outcomes(calls - 1) == Retryable && calls == c.maxRetries + 1)
      && (result == ContextDone ==> cancelled(calls - 1))
    ensures waited == if calls == 0 then 0 else TotalWait(calls - 1, c)
  {
    var backoff := c.initialBackoff;
    waited := 0;
    calls := 0;
    var attempt := 0;
    while attempt <= c.maxRetries
      invariant 0 <= attempt == calls && (c.maxRetries >= 0 ==> attempt <= c.maxRetries)
      invariant c.maxRetries < 0 ==> attempt == 0
      invariant backoff == LoopBackoff(attempt, c)
      invariant waited == TotalWait(attempt, c)
      invariant forall k: nat | k < calls :: outcomes(k) == Retryable && !cancelled(k)
      decreases c.maxRetries - attempt
    {
      var outcome := outcomes(attempt);
      calls := calls + 1;
      if outcome == Success {
        return Nil, calls, waited;
      }
      if outcome == Permanent {
        return NotRetried, calls, waited;
      }
      if attempt >= c.maxRetries {
        break;
      }
      if cancelled(attempt) {
        return ContextDone, calls, waited;
      }
      waited := waited + backoff;
      backoff := Min(backoff * c.multiplier, c.maxBackoff);
      attempt := attempt + 1;
    }
    result := Exhausted;
  }
}
