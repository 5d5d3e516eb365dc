/** The lockout policy of Controllers/AccountsController.cs (Login and
    HandleFailedLogin) on one account row, as a pure state machine: what a
    login attempt, whose password check came out `passwordOk`, does to the
    row and which refusal (if any) it gets. Issuing the session after a granted
    attempt is left to the controller; it does not touch the fields used here. */
module Lockout {
  import opened Common
  import opened Accounts

  /** The number of failures at which HandleFailedLogin locks the account. */
  const LockThreshold: int := 5

  datatype Verdict = Granted | InvalidCredentials | LockedOut(until: Time) | AccountBanned

  /** HandleFailedLogin on a found account: the counter goes up by one, and if
      it has reached the threshold the lock is set to 15 minutes from now.
      The counter is not reset when the lock is applied. */
  function RecordFailure(a: Account, now: Time): (r: Account)
    ensures r.failedLoginAttempts == a.failedLoginAttempts + 1
    ensures r.failedLoginAttempts >= LockThreshold ==> r.accountLockedUntil == Some(now + LockoutWindow)
    ensures r.failedLoginAttempts < LockThreshold ==> r.accountLockedUntil == a.accountLockedUntil
    ensures r.(failedLoginAttempts := a.failedLoginAttempts, accountLockedUntil := a.accountLockedUntil) == a
    ensures IsLocked(r, now) <==> r.failedLoginAttempts >= LockThreshold || IsLocked(a, now)
  {
    var n := a.failedLoginAttempts + 1;
    if n >= LockThreshold then a.(failedLoginAttempts := n, accountLockedUntil := Some(now + LockoutWindow))
    else a.(failedLoginAttempts := n)
  }

  /** One login attempt against an account found by email. The password is
      checked first; only an attempt with the right password reaches the ban
      check, and only then the lock check. */
  function LoginStep(a: Account, passwordOk: bool, now: Time): (r: (Account, Verdict))
    ensures r.1 == Granted <==> passwordOk && !a.banned && !IsLocked(a, now)
    ensures r.1 == AccountBanned <==> passwordOk && a.banned
    ensures !passwordOk ==> r.0 == RecordFailure(a, now)
    ensures !passwordOk ==> r.1 == (if r.0.failedLoginAttempts >= LockThreshold
                                    then LockedOut(now + LockoutWindow) else InvalidCredentials)
    ensures passwordOk && r.1 != Granted ==> r.0 == a
    ensures passwordOk && r.1.LockedOut? ==> r.1 == LockedOut(a.accountLockedUntil.value) && IsLocked(a, now)
    ensures passwordOk && !a.banned && IsLocked(a, now) ==> r.1 == LockedOut(a.accountLockedUntil.value)
    ensures r.1 == Granted ==> r.0 == a.(failedLoginAttempts := 0, lastLogin := Some(now))
    ensures r.1.LockedOut? ==> IsLocked(r.0, now)
    ensures IsLocked(a, now) ==> r.1 != Granted
    ensures passwordOk ==> r.0.accountLockedUntil == a.accountLockedUntil
  {
    if !passwordOk then
      var b := RecordFailure(a, now);
      (b, if b.failedLoginAttempts >= LockThreshold then LockedOut(b.accountLockedUntil.value) else InvalidCredentials)
    else if a.banned then (a, AccountBanned)
    else if IsLocked(a, now) then (a, LockedOut(a.accountLockedUntil.value))
    else (a.(lastLogin := Some(now), failedLoginAttempts := 0), Granted)
  }

  datatype Attempt = Attempt(passwordOk: bool, at: Time)

  /** The row after a series of attempts, each against the row the previous
      one left. */
  function Replay(a: Account, attempts: seq<Attempt>): Account
    decreases |attempts|
  {
    if attempts == [] then a
    else Replay(LoginStep(a, attempts[0].passwordOk, attempts[0].at).0, attempts[1..])
  }

  predicate AllFail(attempts: seq<Attempt>)
  {
    forall i :: 0 <= i < |attempts| ==> !attempts[i].passwordOk
  }

  /** n consecutive failures add n to the counter; once the counter has reached
      the threshold, the lock is 15 minutes after the LAST failure, so every
      further failure pushes the lock forward. Below the threshold the lock
      field is left alone. */
  lemma {:induction false} ConsecutiveFailures(a: Account, attempts: seq<Attempt>)
    requires AllFail(attempts)
    ensures Replay(a, attempts).failedLoginAttempts == a.failedLoginAttempts + |attempts|
    ensures Replay(a, attempts).accountLockedUntil ==
              if |attempts| > 0 && a.failedLoginAttempts + |attempts| >= LockThreshold
              then Some(attempts[|attempts| - 1].at + LockoutWindow)
              else a.accountLockedUntil
    ensures Replay(a, attempts).banned == a.banned
    decreases |attempts|
  {
    if attempts != [] {
      var b := LoginStep(a, false, attempts[0].at).0;
      assert attempts[0].passwordOk == false;
      assert AllFail(attempts[1..]) by {
        forall i | 0 <= i < |attempts[1..]| ensures !attempts[1..][i].passwordOk {
          assert attempts[1..][i] == attempts[i + 1];
        }
      }
      ConsecutiveFailures(b, attempts[1..]);
      if |attempts| > 1 {
        assert attempts[1..][|attempts[1..]| - 1] == attempts[|attempts| - 1];
      }
    }
  }

  /** Five failed logins in a row lock the account for the 15 minutes after the
      fifth, whatever the counter was before. An attempt in that window is
      refused: with the right password it gets the lock message with the
      stored lock time (unless the account is banned), and with a wrong one
      it records a sixth failure and moves the lock forward. */
  lemma FiveFailuresLock(a: Account, failures: seq<Attempt>, next: Attempt)
    requires a.failedLoginAttempts >= 0
    requires |failures| == 5 && AllFail(failures)
    requires failures[4].at <= next.at < failures[4].at + LockoutWindow
    ensures var locked := Replay(a, failures);
            && IsLocked(locked, next.at)
            && locked.accountLockedUntil == Some(failures[4].at + LockoutWindow)
            && LoginStep(locked, next.passwordOk, next.at).1 != Granted
            && (!a.banned ==> LoginStep(locked, true, next.at).1 == LockedOut(failures[4].at + LockoutWindow))
            && LoginStep(locked, false, next.at).1 == LockedOut(next.at + LockoutWindow)
  {
    ConsecutiveFailures(a, failures);
  }

  /** After a granted login the counter starts again from zero: up to four
      further failures, at times no earlier than the granted one, leave the
      account unlocked, and a fifth locks it. */
  lemma GrantResetsCount(a: Account, t0: Time, failures: seq<Attempt>, t: Time)
    requires LoginStep(a, true, t0).1 == Granted
    requires AllFail(failures) && |failures| <= 5
    requires t0 <= t
    ensures var b := Replay(LoginStep(a, true, t0).0, failures);
            && b.failedLoginAttempts == |failures|
            && (|failures| < LockThreshold ==> !IsLocked(b, t))
            && (|failures| == LockThreshold ==> b.accountLockedUntil == Some(failures[4].at + LockoutWindow))
  {
    var g := LoginStep(a, true, t0).0;
    ConsecutiveFailures(g, failures);
  }

  /** The counter is not capped: eleven failures in a row from a fresh row
      leave it at 11, outside the `[Range(0, 10)]` that Models/Account.cs
      declares, since nothing in the schema enforces that range. */
  lemma CounterLeavesDeclaredRange(a: Account, failures: seq<Attempt>)
    requires a.failedLoginAttempts == 0
    requires |failures| == 11 && AllFail(failures)
    ensures Replay(a, failures).failedLoginAttempts == 11
    ensures !DeclaredRanges(Replay(a, failures))
  {
    ConsecutiveFailures(a, failures);
  }
}
