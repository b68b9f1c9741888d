/** Account lockout: isAccountLocked, recordLoginAttempt and the resets, over one account. */
module Lockout {
  import opened Common

  const MAX_FAILED_LOGIN_ATTEMPTS := 5
  const LOCKOUT_MS := 30 * 60 * 1000

  /** The check for an expired lock is strict, so the first instant after a lock is one millisecond later. */
  const PERIOD_MS := LOCKOUT_MS + 1

  datatype Account = Account(isActive: bool, failedLoginAttempts: nat, lockoutUntil: Option<int>)

  /** What isAccountLocked answers at `now`, and the account it leaves. */
  function IsLocked(a: Account, now: int): bool {
    a.lockoutUntil.Some? && now <= a.lockoutUntil.value
  }

  function AfterLockCheck(a: Account, now: int): Account {
    if a.lockoutUntil.Some? && now > a.lockoutUntil.value then Cleared(a) else a
  }

  function Cleared(a: Account): Account {
    a.(failedLoginAttempts := 0, lockoutUntil := None)
  }

  /** recordLoginAttempt with `success` false. */
  function AfterFailure(a: Account, now: int): Account {
    var attempts := a.failedLoginAttempts + 1;
    if attempts >= MAX_FAILED_LOGIN_ATTEMPTS
    then a.(failedLoginAttempts := attempts, lockoutUntil := Some(now + LOCKOUT_MS))
    else a.(failedLoginAttempts := attempts)
  }

  /** Locked exactly at the fifth failure, and never a sixth. */
  predicate AccountOk(a: Account) {
    a.failedLoginAttempts <= MAX_FAILED_LOGIN_ATTEMPTS &&
      (a.lockoutUntil.Some? <==> a.failedLoginAttempts == MAX_FAILED_LOGIN_ATTEMPTS)
  }

  /**
   * A login reads the clock three times: for the lock check, when the password is compared, and
   * when the attempt is recorded. The other events are the administrator's.
   */
  datatype Event =
    | Login(lockTime: int, compareTime: int, recordTime: int, correct: bool)
    | ResetByAdmin(time: int)
    | SetActive(time: int, active: bool)

  function StartTime(e: Event): int {
    if e.Login? then e.lockTime else e.time
  }

  function EndTime(e: Event): int {
    if e.Login? then e.recordTime else e.time
  }

  /** activateUser and resetPassword clear the lock; deactivateUser does not. */
  function Step(a: Account, e: Event): Account {
    match e
    case Login(t1, _, t3, correct) =>
      if !a.isActive || IsLocked(a, t1) then a
      else if correct then Cleared(a)
      else AfterFailure(AfterLockCheck(a, t1), t3)
    case ResetByAdmin(_) => Cleared(a)
    case SetActive(_, active) => if active then Cleared(a).(isActive := true) else a.(isActive := false)
  }

  /** Whether the event compares a password. */
  predicate Compares(a: Account, e: Event) {
    e.Login? && a.isActive && !IsLocked(a, e.lockTime)
  }

  /** Whether the event clears the lock without waiting for it: a success or an administrator. */
  predicate Clears(a: Account, e: Event) {
    match e
    case Login(_, _, _, correct) => Compares(a, e) && correct
    case ResetByAdmin(_) => true
    case SetActive(_, active) => active
  }

  /** One event after another, on a clock that does not go back. */
  predicate Sequential(events: seq<Event>, clock: int)
    decreases |events|
  {
    events == [] ||
    (var e := events[0];
     && clock <= StartTime(e) <= EndTime(e)
     && (e.Login? ==> e.lockTime <= e.compareTime <= e.recordTime)
     && Sequential(events[1..], EndTime(e)))
  }

  function Run(a: Account, events: seq<Event>): Account
    decreases |events|
  {
    if events == [] then a else Run(Step(a, events[0]), events[1..])
  }

  /** Password comparisons made in the interval from `from` to `to`. */
  function Comparisons(a: Account, events: seq<Event>, from: int, to: int): nat
    decreases |events|
  {
    if events == [] then 0
    else
      (if Compares(a, events[0]) && from <= events[0].compareTime <= to then 1 else 0)
      + Comparisons(Step(a, events[0]), events[1..], from, to)
  }

  /** Clearing events from the first one that ends at or after `from`. */
  function Clearings(a: Account, events: seq<Event>, from: int, to: int): nat
    decreases |events|
  {
    if events == [] then 0
    else
      (if Clears(a, events[0]) && from <= EndTime(events[0]) && StartTime(events[0]) <= to then 1 else 0)
      + Clearings(Step(a, events[0]), events[1..], from, to)
  }

  lemma StepKeepsAccountOk(a: Account, e: Event)
    requires AccountOk(a)
    ensures AccountOk(Step(a, e))
  {
  }

  // ---- When an account locks ---------------------------------------------------------------

  lemma {:induction false} RunSnoc(a: Account, events: seq<Event>, e: Event)
    ensures Run(a, events + [e]) == Step(Run(a, events), e)
    decreases |events|
  {
    var all := events + [e];
    if events == [] {
      assert all[1..] == [] && Run(Step(a, e), []) == Step(a, e);
    } else {
      assert all[0] == events[0] && all[1..] == events[1..] + [e];
      RunSnoc(Step(a, events[0]), events[1..], e);
    }
  }

  /** The event compares a password on an active account whose lock, if it had one, has lapsed. */
  predicate Guesses(a: Account, e: Event) {
    e.Login? && a.isActive && (a.lockoutUntil.None? || e.lockTime > a.lockoutUntil.value)
  }

  /**
   * The wrong guesses since the last right one, the last time an administrator activated the account
   * or reset its password, or the last lock that had lapsed when somebody tried again.
   */
  function WrongSince(a: Account, events: seq<Event>): nat
    decreases |events|
  {
    if events == [] then 0
    else
      var before, last := events[..|events| - 1], events[|events| - 1];
      var was := Run(a, before);
      if last.ResetByAdmin? || (last.SetActive? && last.active) then 0
      else if !Guesses(was, last) then WrongSince(a, before)
      else if last.correct then 0
      else 1 + if was.lockoutUntil.Some? then 0 else WrongSince(a, before)
  }

  /**
   * Over every run from a clear account, the counter is the number of those wrong guesses, at most
   * five; the account carries a lock exactly from the fifth on, and that lock ends thirty minutes
   * after the fifth was recorded.
   */
  lemma {:induction false} LocksAtFifth(a: Account, events: seq<Event>)
    requires a.failedLoginAttempts == 0 && a.lockoutUntil.None?
    ensures var b := Run(a, events);
      && b.failedLoginAttempts == WrongSince(a, events) <= 5
      && (b.lockoutUntil.Some? <==> WrongSince(a, events) == 5)
    decreases |events|
  {
    if events != [] {
      var before, last := events[..|events| - 1], events[|events| - 1];
      assert events == before + [last];
      RunSnoc(a, before, last);
      LocksAtFifth(a, before);
    }
  }

  /** And a lock that a login sets is set by the fifth wrong guess, for thirty minutes from its recording. */
  lemma LockSetExactly(a: Account, events: seq<Event>, e: Event)
    requires a.failedLoginAttempts == 0 && a.lockoutUntil.None?
    ensures var (was, b) := (Run(a, events), Run(a, events + [e]));
      (b.lockoutUntil.Some? && b.lockoutUntil != was.lockoutUntil) ==>
        && e.Login? && !e.correct && Guesses(was, e)
        && WrongSince(a, events + [e]) == 5 && b.lockoutUntil == Some(e.recordTime + 1800000)
  {
    RunSnoc(a, events, e);
    LocksAtFifth(a, events + [e]);
  }

  // ---- The rate bound ----------------------------------------------------------------------

  /**
   * The comparisons still to be had from `a` up to `to`, when none comes before `from` and nothing
   * clears the lock: what is left of five, then five per lockout that can run out in time.
   */
  function Allowance(a: Account, from: int, to: int): int {
    if a.lockoutUntil.Some? && a.lockoutUntil.value >= from
        then 5 * ((to - a.lockoutUntil.value + LOCKOUT_MS) / PERIOD_MS)
    else (if a.lockoutUntil.Some? then 5 else 5 - a.failedLoginAttempts) + 5 * ((to - from) / PERIOD_MS)
  }

  predicate LockedSince(a: Account, from: int) {
    a.lockoutUntil.Some? ==> a.lockoutUntil.value - LOCKOUT_MS <= from
  }

  lemma DivMonotone(x: int, y: int)
    requires x <= y
    ensures x / PERIOD_MS <= y / PERIOD_MS
    ensures (x + PERIOD_MS) / PERIOD_MS == x / PERIOD_MS + 1
    ensures x >= 0 ==> x / PERIOD_MS >= 0
  {
  }

  lemma NothingLate(a: Account, events: seq<Event>, clock: int, from: int, to: int)
    requires Sequential(events, clock) && to < clock
    ensures Comparisons(a, events, from, to) == 0
    decreases |events|
  {
    if events != [] { NothingLate(Step(a, events[0]), events[1..], EndTime(events[0]), from, to); }
  }

  /** Not before `from`, as far as counting goes: an event may have begun a little earlier. */
  predicate Late(e: Event, from: int) {
    from <= if e.Login? then e.compareTime else e.time
  }

  lemma AllowanceShrinks(a: Account, f: int, g: int, to: int)
    requires AccountOk(a) && LockedSince(a, f) && f <= g <= to
    ensures 0 <= Allowance(a, g, to) <= Allowance(a, f, to)
    ensures 5 * ((to - g) / PERIOD_MS) <= Allowance(a, f, to)
  {
  }

  /** One comparison costs one unit of allowance, or is paid for by clearing the lock. */
  lemma CompareCosts(a: Account, e: Event, f: int, to: int)
    requires AccountOk(a) && LockedSince(a, f) && Late(e, f) && Compares(a, e)
    requires e.lockTime <= e.compareTime <= e.recordTime && f <= EndTime(e) <= to
    ensures LockedSince(Step(a, e), EndTime(e))
    ensures 1 + Allowance(Step(a, e), EndTime(e), to) <= Allowance(a, f, to) + if Clears(a, e) then 5 else 0
  {
    var g := e.recordTime;
    DivMonotone(to - g, to - f);
    if a.lockoutUntil.Some? {
      var u := a.lockoutUntil.value;
      DivMonotone(to - g, to - u);
    }
  }

  lemma StepCosts(a: Account, e: Event, f: int, to: int)
    requires AccountOk(a) && LockedSince(a, f) && Late(e, f) && StartTime(e) <= EndTime(e) && f <= EndTime(e) <= to
    requires e.Login? ==> e.lockTime <= e.compareTime <= e.recordTime
    ensures LockedSince(Step(a, e), EndTime(e))
    ensures (if Compares(a, e) then 1 else 0) + Allowance(Step(a, e), EndTime(e), to) <= Allowance(a, f, to) +
        if Clears(a, e) then 5 else 0
  {
    AllowanceShrinks(a, f, EndTime(e), to);
    if Compares(a, e) { CompareCosts(a, e, f, to); }
  }

  lemma {:induction false} WithinAllowance(a: Account, events: seq<Event>, clock: int, from: int, f: int, to: int)
    requires AccountOk(a) && Sequential(events, clock) && LockedSince(a, f)
    requires from <= f <= to && clock <= f && (events != [] ==> Late(events[0], f))
    ensures Comparisons(a, events, from, to) <= Allowance(a, f, to) + 5 * Clearings(a, events, from, to)
    decreases |events|
  {
    AllowanceShrinks(a, f, f, to);
    if events != [] {
      var e, next, rest := events[0], Step(a, events[0]), events[1..];
      StepKeepsAccountOk(a, e);
      if EndTime(e) > to {
        NothingLate(next, rest, EndTime(e), from, to);
        if Compares(a, e) && e.compareTime <= to { LastComparison(a, e, f, to); }
      } else {
        StepCosts(a, e, f, to);
        WithinAllowance(next, rest, EndTime(e), from, EndTime(e), to);
      }
    }
  }

  /** A comparison inside the interval whose recording falls after it still fits. */
  lemma LastComparison(a: Account, e: Event, f: int, to: int)
    requires AccountOk(a) && LockedSince(a, f) && Late(e, f) && Compares(a, e) && e.lockTime <= e.compareTime <= to
    requires f <= to
    ensures 1 <= Allowance(a, f, to)
  {
  }

  /**
   * The lockout rate bound, for every run of logins and administrator actions and every interval:
   * at most five password comparisons per started lockout period, plus five for every event in the
   * interval that clears the lock early.
   */
  lemma {:induction false} LockoutRateBound(a: Account, events: seq<Event>, clock: int, from: int, to: int)
    requires AccountOk(a) && LockedSince(a, clock) && Sequential(events, clock) && from <= to
    ensures Comparisons(a, events, from, to) <= 5 * ((to - from) / 1800001 + 1 + Clearings(a, events, from, to))
    decreases |events|
  {
    DivMonotone(0, to - from);
    if events != [] {
      var e := events[0];
      if !Late(e, from) {
        StepKeepsAccountOk(a, e);
        assert LockedSince(Step(a, e), EndTime(e));
        LockoutRateBound(Step(a, e), events[1..], EndTime(e), from, to);
      } else if clock > to {
        NothingLate(a, events, clock, from, to);
      } else {
        var f := Max(clock, from);
        WithinAllowance(a, events, clock, from, f, to);
        DivMonotone(to - f, to - from);
        if a.lockoutUntil.Some? && a.lockoutUntil.value >= f { DivMonotone(to - a.lockoutUntil.value, to - from); }
      }
    }
  }

  /** With nothing clearing the lock, the plain bound, from any account a run can produce. */
  lemma LockoutRateBoundUncleared(a: Account, events: seq<Event>, clock: int, from: int, to: int)
    requires AccountOk(a) && LockedSince(a, clock) && Sequential(events, clock) && from <= to
    requires Clearings(a, events, from, to) == 0
    ensures Comparisons(a, events, from, to) <= 5 * ((to - from) / 1800001 + 1) <= 5 * ((to - from) / 1800000 + 1)
  {
    LockoutRateBound(a, events, clock, from, to);
  }

  function WrongGuesses(n: nat, time: int): seq<Event> {
    if n == 0 then [] else [Login(time, time, time, false)] + WrongGuesses(n - 1, time)
  }

  /** Five wrong guesses at once, again as soon as each lock has run out, `n` times. */
  function Bursts(n: nat, time: int): seq<Event> {
    if n == 0 then [] else WrongGuesses(5, time) + Bursts(n - 1, time + PERIOD_MS)
  }

  predicate Unlocked(a: Account, time: int) {
    a.isActive && (a.lockoutUntil.Some? ==> time > a.lockoutUntil.value) &&
      (a.lockoutUntil.None? ==> a.failedLoginAttempts == 0)
  }

  function LockedAt(a: Account, time: int): Account {
    a.(failedLoginAttempts := 5, lockoutUntil := Some(time + LOCKOUT_MS))
  }

  lemma {:induction false} GuessesLock(n: nat, a: Account, time: int, rest: seq<Event>, from: int, to: int)
    requires 1 <= n <= 5 && a.isActive && from <= time <= to
    requires if n == 5 then Unlocked(a, time) else a.lockoutUntil.None? && a.failedLoginAttempts == 5 - n
    ensures Comparisons(a, WrongGuesses(n, time) + rest, from, to) == n + Comparisons(LockedAt(a, time), rest, from, to)
    ensures Clearings(a, WrongGuesses(n, time) + rest, from, to) == Clearings(LockedAt(a, time), rest, from, to)
    decreases n
  {
    var guess := Login(time, time, time, false);
    var all := WrongGuesses(n, time) + rest;
    assert all[0] == guess && all[1..] == WrongGuesses(n - 1, time) + rest;
    if n == 1 {
      assert all[1..] == rest && Step(a, guess) == LockedAt(a, time);
    } else {
      GuessesLock(n - 1, Step(a, guess), time, rest, from, to);
      assert LockedAt(Step(a, guess), time) == LockedAt(a, time);
    }
  }

  lemma {:induction false} BurstsCompare(n: nat, a: Account, time: int, from: int, to: int)
    requires Unlocked(a, time) && from <= time && (n > 0 ==> time + (n - 1) * PERIOD_MS <= to)
    ensures Comparisons(a, Bursts(n, time), from, to) == 5 * n && Clearings(a, Bursts(n, time), from, to) == 0
    decreases n
  {
    if n > 0 {
      GuessesLock(5, a, time, Bursts(n - 1, time + PERIOD_MS), from, to);
      BurstsCompare(n - 1, LockedAt(a, time), time + PERIOD_MS, from, to);
    }
  }

  lemma {:induction false} GuessesSequential(n: nat, time: int, rest: seq<Event>)
    requires Sequential(rest, time)
    ensures Sequential(WrongGuesses(n, time) + rest, time)
  {
    var all := WrongGuesses(n, time) + rest;
    if n == 0 {
      assert all == rest;
    } else {
      assert all[0] == Login(time, time, time, false) && all[1..] == WrongGuesses(n - 1, time) + rest;
      GuessesSequential(n - 1, time, rest);
    }
  }

  lemma {:induction false} BurstsSequential(n: nat, time: int, clock: int)
    requires clock <= time
    ensures Sequential(Bursts(n, time), clock)
    decreases n
  {
    if n > 0 {
      BurstsSequential(n - 1, time + PERIOD_MS, time);
      GuessesSequential(5, time, Bursts(n - 1, time + PERIOD_MS));
      assert Bursts(n, time)[0] == Login(time, time, time, false);
    }
  }

  /** The bound is met for every interval: some sequential run, with nothing clearing the lock, makes it an equality. */
  lemma BoundIsMet(a: Account, time: int, length: nat)
    requires a.isActive && a.lockoutUntil.None? && a.failedLoginAttempts == 0
    ensures var events := Bursts(length / 1800001 + 1, time);
      && Sequential(events, time) && Clearings(a, events, time, time + length) == 0
      && Comparisons(a, events, time, time + length) == 5 * (length / 1800001 + 1)
  {
    BurstsSequential(length / PERIOD_MS + 1, time, time);
    BurstsCompare(length / PERIOD_MS + 1, a, time, time, time + length);
  }
}
