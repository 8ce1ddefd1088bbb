/**
 takeStorageLock's loop: how often it tries, how long it sleeps, and when it ends.

 What the other processes on the host do is one answer per iteration.
 */
module Backoff {
  import opened Options

  // Made: our mkdir worked.  Stale: the lock was there and overdue; it is removed.
  // Busy: it was there and not overdue.  Cancelled: likewise, and snug is shutting down.
  datatype Answer = Made | MkdirFailed | Stale | Busy | Cancelled

  datatype Outcome = Taken | Refused | LockHeld | ShuttingDown

  const TRIES: nat := 10
  const SECOND_MS: nat := 1000
  const NS_PER_MS: nat := 1_000_000
  const INT64_MAX: nat := 0x7FFF_FFFF_FFFF_FFFF

  function Pow2(n: nat): nat { if n == 0 then 1 else 2 * Pow2(n - 1) }

  // 100 ms << try, capped at a second.
  function DelayMs(try: nat): nat {
    if 100 * Pow2(try) < SECOND_MS then 100 * Pow2(try) else SECOND_MS
  }

  // What the iteration that finds this answer returns; None when it goes round again.
  // Breaking a stale lock skips the count of tries.
  function EndsWith(a: Answer, try: nat): Option<Outcome> {
    match a
    case Made => Some(Taken)
    case MkdirFailed => Some(Refused)
    case Stale => None
    case Busy => if try >= TRIES then Some(LockHeld) else None
    case Cancelled => Some(if try >= TRIES then LockHeld else ShuttingDown)
  }

  ghost predicate Returns(answers: nat -> Answer) { exists i: nat :: EndsWith(answers(i), i).Some? }

  function StaleSightings(answers: nat -> Answer, n: nat): nat {
    if n == 0 then 0 else StaleSightings(answers, n - 1) + if answers(n - 1).Stale? then 1 else 0
  }

  // All the sleeping the first n iterations could do.
  function SleepBudget(n: nat): nat {
    if n == 0 then 0 else SleepBudget(n - 1) + if n <= TRIES then DelayMs(n - 1) else 0
  }

  lemma {:induction false} SleepBudgetTotal(n: nat)
    ensures SleepBudget(n) <= 7500 && (n >= TRIES ==> SleepBudget(n) == 7500)
    ensures n <= TRIES ==> SleepBudget(n) <= SleepBudget(TRIES)
  {
    assert DelayMs(0) == 100 && DelayMs(1) == 200 && DelayMs(2) == 400 && DelayMs(3) == 800;
    Saturates(4); Saturates(5); Saturates(6); Saturates(7); Saturates(8); Saturates(9);
    assert SleepBudget(4) == 1500;
    assert SleepBudget(7) == 4500;
    assert SleepBudget(10) == 7500;
    if n > TRIES {
      SleepBudgetTotal(n - 1);
    } else {
      BudgetGrows(n, TRIES);
    }
  }

  // What the first n iterations sleep: once per lock they meet that is not stale.
  function Slept(answers: nat -> Answer, n: nat): nat {
    if n == 0 then 0 else Slept(answers, n - 1) + if answers(n - 1).Busy? && n <= TRIES then DelayMs(n - 1) else 0
  }

  lemma {:induction false} SleptWithinBudget(answers: nat -> Answer, n: nat)
    ensures Slept(answers, n) <= SleepBudget(n) <= 7500
  {
    SleepBudgetTotal(n);
    if n > 0 {
      SleptWithinBudget(answers, n - 1);
    }
  }

  lemma {:induction false} Saturates(try: nat)
    requires try >= 4
    ensures DelayMs(try) == SECOND_MS && Pow2(try) >= 16
  {
    if try > 4 {
      Saturates(try - 1);
    } else {
      assert Pow2(4) == 16;
    }
  }

  lemma {:induction false} BudgetGrows(m: nat, n: nat)
    requires m <= n
    ensures SleepBudget(m) <= SleepBudget(n)
    decreases n
  {
    if m < n {
      BudgetGrows(m, n - 1);
    }
  }

  /** The shift in the delay is safe only because sleeping stops at the tenth try: the
      Duration 100 ms << try fits 64 bits in nanoseconds up to 36, and not at 37. */
  lemma ShiftFits(try: nat)
    requires try < TRIES
    ensures 100 * NS_PER_MS * Pow2(try) <= INT64_MAX
    ensures 100 * NS_PER_MS * Pow2(37) > INT64_MAX
  {
    assert Pow2(9) == 512;
    PowGrows(try, 9);
    PowSum(10, 10); PowSum(20, 10); PowSum(30, 7);
    assert Pow2(10) == 1024 && Pow2(7) == 128;
    assert Pow2(37) == 137438953472;
  }

  lemma {:induction false} PowGrows(m: nat, n: nat)
    requires m <= n
    ensures Pow2(m) <= Pow2(n)
    decreases n
  {
    if m < n {
      PowGrows(m, n - 1);
    }
  }

  lemma {:induction false} PowSum(m: nat, n: nat)
    ensures Pow2(m + n) == Pow2(m) * Pow2(n)
  {
    if n > 0 {
      PowSum(m, n - 1);
    }
  }

  // A remark on the definition: the loop runs for ever exactly when its first ten iterations
  // each meet a lock and every later one meets a stale lock, so an end of the stale
  // sightings, however late, ends it.
  lemma NeverReturnsIff(answers: nat -> Answer)
    ensures !Returns(answers) <==>
              && (forall i: nat :: i < TRIES ==> answers(i) in {Stale, Busy})
              && (forall i: nat :: i >= TRIES ==> answers(i) == Stale)
  {
    if !Returns(answers) {
      forall i: nat ensures EndsWith(answers(i), i).None? {}
    }
    forall i: nat | EndsWith(answers(i), i).Some?
      ensures if i < TRIES then answers(i) !in {Stale, Busy} else answers(i) != Stale
    {
    }
  }

  /** The loop itself.  It returns at the first iteration that ends, having made at
      most eleven attempts plus one for each stale lock it saw, and having slept at
      most 7.5 seconds whatever happened. */
  method TakeStorageLock(answers: nat -> Answer) returns (outcome: Outcome, attempts: nat, sleptMs: nat)
    requires Returns(answers)
    ensures attempts > 0 && EndsWith(answers(attempts - 1), attempts - 1) == Some(outcome)
    ensures var last := answers(attempts - 1);
            && (outcome == Taken <==> last == Made)
            && (outcome == Refused <==> last == MkdirFailed)
            && (outcome == LockHeld <==> last in {Busy, Cancelled} && attempts > 10)
            && (outcome == ShuttingDown <==> last == Cancelled && attempts <= 10)
    ensures forall i: nat :: i + 1 < attempts ==> answers(i) == Stale || (answers(i) == Busy && i < 10)
    ensures forall i: nat :: i + 1 < attempts ==> EndsWith(answers(i), i).None?
    ensures attempts <= TRIES + 1 + StaleSightings(answers, attempts)
    ensures sleptMs == Slept(answers, attempts - 1) <= 7500
  {
    ghost var last: nat :| EndsWith(answers(last), last).Some?;
    var try := 0;
    sleptMs := 0;
    ghost var stale := 0;
    while true
      invariant try <= last && sleptMs == Slept(answers, try)
      invariant forall i: nat :: i < try ==> EndsWith(answers(i), i).None?
      invariant try <= TRIES + stale && stale == StaleSightings(answers, try)
      decreases last - try
    {
      var a := answers(try);
      SleptWithinBudget(answers, try);
      if a == Made {
        return Taken, try + 1, sleptMs;
      }
      if a == MkdirFailed {
        return Refused, try + 1, sleptMs;
      }
      if a != Stale {
        if try >= TRIES {
          return LockHeld, try + 1, sleptMs;
        }
        if a == Cancelled {
          return ShuttingDown, try + 1, sleptMs;
        }
        sleptMs := sleptMs + DelayMs(try);
      }
      stale := stale + if a == Stale then 1 else 0;
      try := try + 1;
    }
  }
}
