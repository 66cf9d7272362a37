/** The waiting loop of `acquire_primary`: how long it can sleep, and how often. */
module LockWaiting {
  import opened Prelude
  import opened LockClassifier

  const BACKOFF_INITIAL := 0.05
  const BACKOFF_MAX := 1.0
  const MAX_RECOVERY_WAIT := 30.0

  /** What one pass of the loop meets. `Vanished`: the lock file disappeared between create and read. `RecoveryError`: a
      stale verdict whose recovery attempt raised. */
  datatype Look =
    MutexPresent | CreateOk | CreateError | Vanished | Unparseable | RecoveryError | Seen(verdict: Verdict)

  /** One pass: what it met, and how much of the elapsed time so far was spent other than sleeping. */
  datatype Pass = Pass(look: Look, busy: real)

  datatype Outcome = Acquired | TimedOut | Held | Raised | StillWaiting

  function Doubled(backoff: real): real {
    if backoff * 2.0 < BACKOFF_MAX then backoff * 2.0 else BACKOFF_MAX
  }

  /** Length of the n-th sleep. */
  function Backoff(n: nat): real {
    if n == 0 then BACKOFF_INITIAL else Doubled(Backoff(n - 1))
  }

  /** Total length of the first n sleeps. */
  function Slept(n: nat): real {
    if n == 0 then 0.0 else Slept(n - 1) + Backoff(n - 1)
  }

  lemma {:induction false} BackoffInRange(n: nat)
    ensures BACKOFF_INITIAL <= Backoff(n) <= BACKOFF_MAX
    ensures n >= 5 ==> Backoff(n) == BACKOFF_MAX
  {
    if n > 0 {
      BackoffInRange(n - 1);
      if n == 5 {
        assert Backoff(1) == 0.1 && Backoff(2) == 0.2 && Backoff(3) == 0.4 && Backoff(4) == 0.8;
      }
    }
  }

  /** Five sleeps double up to the cap; from then on every sleep costs a full second. */
  lemma {:induction false} SleepsAddUp(n: nat)
    ensures Slept(n) >= n as real - 3.45
    ensures n >= 5 ==> Slept(n) == n as real - 3.45
  {
    assert Backoff(0) == 0.05 && Backoff(1) == 0.1 && Backoff(2) == 0.2 && Backoff(3) == 0.4 && Backoff(4) == 0.8;
    assert Slept(0) == 0.0 && Slept(1) == 0.05 && Slept(2) == 0.15 && Slept(3) == 0.35 && Slept(4) == 0.75;
    if n >= 5 {
      SleepsAddUp(n - 1);
      BackoffInRange(n - 1);
    }
  }

  predicate ClockRuns(script: seq<Pass>) {
    && (forall i :: 0 <= i < |script| ==> script[i].busy >= 0.0)
    && (forall i, j :: 0 <= i < j < |script| ==> script[i].busy <= script[j].busy)
  }

  /** How long the recovery mutex is waited for, before the check that stops it. */
  function RecoveryCap(timeout: real, maxRecoveryWait: Option<real>): (cap: real)
    ensures maxRecoveryWait.Some? ==> cap == maxRecoveryWait.value
    ensures maxRecoveryWait.None? ==> cap <= timeout && cap <= 30.0 && (cap == timeout || cap == 30.0)
  {
    if maxRecoveryWait.Some? then maxRecoveryWait.value
    else if timeout < MAX_RECOVERY_WAIT then timeout
    else MAX_RECOVERY_WAIT
  }

  /** Looks after which the loop sleeps, if there is time left. */
  predicate Sleeps(look: Look) {
    look == MutexPresent || (look.Seen? && look.verdict != Ambiguous)
  }

  /** How many of the first n passes sleep. */
  function Naps(script: seq<Pass>, n: nat): nat
    requires n <= |script|
  {
    if n == 0 then 0 else Naps(script, n - 1) + (if Sleeps(script[n - 1].look) then 1 else 0)
  }

  /** How long the first n passes sleep on the recovery mutex. */
  function MutexSlept(script: seq<Pass>, n: nat): real
    requires n <= |script|
  {
    if n == 0 then 0.0
    else
      MutexSlept(script, n - 1) + if script[n - 1].look == MutexPresent then Backoff(Naps(script, n - 1)) else 0.0
  }

  /** The `i`-th pass may go on: it does not sleep, or it comes before the deadline and the cap on the mutex. */
  predicate InTime(script: seq<Pass>, i: nat, timeout: real, cap: real)
    requires i < |script|
  {
    Sleeps(script[i].look) ==>
      && Slept(Naps(script, i)) + script[i].busy < timeout
      && (script[i].look == MutexPresent ==> MutexSlept(script, i) <= cap)
  }

  lemma NothingYet(script: seq<Pass>)
    ensures Naps(script, 0) == 0 && MutexSlept(script, 0) == 0.0 && Slept(0) == 0.0 && Backoff(0) == BACKOFF_INITIAL
  {
  }

  lemma OnePass(script: seq<Pass>, i: nat, timeout: real, cap: real)
    requires i < |script|
    ensures
      var n, look := Naps(script, i), script[i].look;
      && Naps(script, i + 1) == (if Sleeps(look) then n + 1 else n)
      && MutexSlept(script, i + 1) == MutexSlept(script, i) + (if look == MutexPresent then Backoff(n) else 0.0)
      && Slept(n + 1) == Slept(n) + Backoff(n) && Backoff(n + 1) == Doubled(Backoff(n))
      && (InTime(script, i, timeout, cap) <==>
            !Sleeps(look)
            || (Slept(n) + script[i].busy < timeout && (look == MutexPresent ==> MutexSlept(script, i) <= cap)))
  {
  }

  /** The loop, driven by what each pass meets. A script that ends before the loop does leaves it waiting. */
  method AcquirePrimary(timeout: real, maxRecoveryWait: Option<real>, script: seq<Pass>)
    returns (outcome: Outcome, slept: real, recoverySeen: real, naps: nat, passes: nat)
    requires ClockRuns(script)
    // total sleep, and sleep spent on the recovery mutex
    ensures slept == 0.0 || slept < timeout + BACKOFF_MAX
    ensures recoverySeen == 0.0 || recoverySeen <= RecoveryCap(timeout, maxRecoveryWait) + BACKOFF_MAX
    // number of sleeps
    ensures slept == Slept(naps)
    ensures
      var done := if outcome == TimedOut && passes > 0 then passes - 1 else passes;
      done <= |script| && naps == Naps(script, done) && recoverySeen == MutexSlept(script, done)
    ensures naps == 0 || naps as real < timeout + 4.45
    // the lock is handed out only by an exclusive create, and every other exit has its cause
    ensures passes <= |script|
    ensures outcome == StillWaiting ==> passes == |script|
    ensures forall i :: 0 <= i < passes - 1 ==>
              !Ends(script[i].look) && InTime(script, i, timeout, RecoveryCap(timeout, maxRecoveryWait))
    ensures outcome == TimedOut <==>
              passes > 0 && !InTime(script, passes - 1, timeout, RecoveryCap(timeout, maxRecoveryWait))
    ensures outcome == Acquired ==> passes > 0 && script[passes - 1].look == CreateOk
    ensures outcome == Held ==> passes > 0 && script[passes - 1].look == Seen(Ambiguous)
    ensures outcome == Raised ==> passes > 0 && script[passes - 1].look in {CreateError, Unparseable, RecoveryError}
    ensures outcome == TimedOut ==> passes > 0
    ensures outcome == TimedOut ==>
      slept + script[passes - 1].busy >= timeout
      || (script[passes - 1].look == MutexPresent && recoverySeen > RecoveryCap(timeout, maxRecoveryWait))
  {
    hide Naps, MutexSlept, InTime, Slept, Backoff, Doubled;
    NothingYet(script);
    var cap := RecoveryCap(timeout, maxRecoveryWait);
    var deadline := timeout;
    recoverySeen := 0.0;
    slept := 0.0;
    naps := 0;
    passes := 0;
    var backoff := BACKOFF_INITIAL;
    while passes < |script|
      invariant 0 <= passes <= |script|
      invariant backoff == Backoff(naps) && slept == Slept(naps)
      invariant slept == 0.0 || slept < timeout + BACKOFF_MAX
      invariant naps == 0 || Slept(naps - 1) < timeout
      invariant 0.0 <= recoverySeen && (recoverySeen == 0.0 || recoverySeen <= cap + BACKOFF_MAX)
      invariant naps == Naps(script, passes) && recoverySeen == MutexSlept(script, passes)
      invariant forall i :: 0 <= i < passes ==> !Ends(script[i].look) && InTime(script, i, timeout, cap)
    {
      var pass := script[passes];
      var now := slept + pass.busy;
      BackoffInRange(naps);
      NapBound(naps, timeout);
      OnePass(script, passes, timeout, cap);
      passes := passes + 1;
      if pass.look == MutexPresent {
        if recoverySeen > cap {
          outcome := TimedOut;
          return;
        }
        if now >= deadline {
          outcome := TimedOut;
          return;
        }
        slept, naps := slept + backoff, naps + 1;
        recoverySeen := recoverySeen + backoff;
        backoff := Doubled(backoff);
        continue;
      }
      if pass.look == CreateOk {
        outcome := Acquired;
        return;
      }
      if pass.look in {CreateError, Unparseable, RecoveryError} {
        outcome := Raised;
        return;
      }
      if pass.look == Vanished {
        continue;
      }
      if pass.look == Seen(Ambiguous) {
        outcome := Held;
        return;
      }
      // live, foreign host, or stale after a recovery attempt: check the deadline, then sleep
      if now >= deadline {
        outcome := TimedOut;
        return;
      }
      slept, naps := slept + backoff, naps + 1;
      backoff := Doubled(backoff);
    }
    NapBound(naps, timeout);
    outcome := StillWaiting;
  }

  /** Looks that end the loop whatever the clock says. */
  predicate Ends(look: Look) {
    look in {CreateOk, CreateError, Unparseable, RecoveryError, Seen(Ambiguous)}
  }

  lemma NapBound(naps: nat, timeout: real)
    ensures naps > 0 && Slept(naps - 1) < timeout ==> naps as real < timeout + 4.45
  {
    if naps > 0 {
      SleepsAddUp(naps - 1);
    }
  }

  // ------------------------------------------------------------------ release

  /** The directory entry other processes see, and the handle one process keeps. */
  class LockDir {
    var primary: Option<nat>

    constructor (primary: Option<nat>)
      ensures this.primary == primary
    {
      this.primary := primary;
    }
  }

  class LockHandle {
    const token: nat
    const dir: LockDir
    var released: bool

    constructor (dir: LockDir, token: nat)
      ensures this.dir == dir && this.token == token && !released
    {
      this.dir := dir;
      this.token := token;
      released := false;
    }

    /** The first release removes the lock file; a second one touches nothing, whoever holds the lock by then. */
    method Release()
      modifies this, dir
      ensures released
      ensures dir.primary == if old(released) then old(dir.primary) else None
    {
      if released {
        return;
      }
      released := true;
      dir.primary := None;
    }
  }
}
