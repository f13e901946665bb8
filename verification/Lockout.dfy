/**
 The login lockout: a counter of failed passwords, the time of the last one, and a
 lock. Only the gap to the previous failure is compared with the window, and the
 counter is cleared by a success or by the first attempt after a lock has run out.
 */
module Lockout {
  import opened Prelude

  datatype Policy = Policy(maxAttempts: int, window: Time, duration: Time)

  /** Configuration loading rejects anything else. */
  predicate IsPolicy(p: Policy) {
    p.maxAttempts > 0 && p.window > 0 && p.duration > 0
  }

  /** The lockout columns of a user row. */
  datatype Account = Account(attempts: nat, lastFailed: Option<Time>, lockedUntil: Option<Time>)

  const CLEAN := Account(0, None, None)

  /** What comparing the password comes to, if the call gets that far. */
  datatype Check = NoPasswordSet | MalformedHash | Match | Mismatch

  datatype Write = ResetExpiredLock | IncrementAttempts | LockAccount | ResetAfterSuccess | UpdateLastLogin

  datatype Event =
    | Attempt(now: Time, check: Check, faults: set<Write>)
    | Unlock(now: Time)

  datatype Result = Locked(until: Time) | InvalidCredentials | Verified | Error

  /** `checked`: the attempt got as far as comparing passwords. */
  datatype Outcome = Outcome(account: Account, result: Result, checked: bool)

  predicate IsLocked(a: Account, now: Time) {
    a.lockedUntil.Some? && a.lockedUntil.value > now
  }

  predicate WithinWindow(p: Policy, a: Account, now: Time) {
    a.lastFailed.Some? && now - a.lastFailed.value <= p.window
  }

  /** VerifyCredentials for an existing user. The window test uses the row as first read. */
  function Verify(p: Policy, a: Account, now: Time, check: Check, faults: set<Write>): (o: Outcome) {
    if IsLocked(a, now) then Outcome(a, Locked(a.lockedUntil.value), false)
    else if a.lockedUntil.Some? && ResetExpiredLock in faults then Outcome(a, Error, false)
    else
      var b := if a.lockedUntil.Some? then CLEAN else a;
      match check
      case NoPasswordSet => Outcome(b, InvalidCredentials, false)
      case MalformedHash => Outcome(b, Error, false)
      case Match =>
        if ResetAfterSuccess in faults then Outcome(b, Error, true)
        else Outcome(CLEAN, if UpdateLastLogin in faults then Error else Verified, true)
      case Mismatch =>
        if IncrementAttempts in faults then Outcome(b, Error, true)
        else
          var c := Account(b.attempts + 1, Some(now), b.lockedUntil);
          if c.attempts >= p.maxAttempts && WithinWindow(p, a, now) then
            if LockAccount in faults then Outcome(c, Error, true)
            else Outcome(c.(lockedUntil := Some(now + p.duration)), Locked(now + p.duration), true)
          else Outcome(c, InvalidCredentials, true)
  }

  /** The user row, changed in place statement by statement. */
  class UserRow {
    var attempts: nat
    var lastFailed: Option<Time>
    var lockedUntil: Option<Time>

    function Columns(): (a: Account)
      reads this
    {
      Account(attempts, lastFailed, lockedUntil)
    }

    method ResetLoginAttempts()
      modifies this
      ensures Columns() == CLEAN
    {
      attempts, lastFailed, lockedUntil := 0, None, None;
    }

    method IncrementFailedLoginAttempts(now: Time)
      modifies this
      ensures Columns() == Account(old(attempts) + 1, Some(now), old(lockedUntil))
    {
      attempts, lastFailed := attempts + 1, Some(now);
    }

    method VerifyCredentials(p: Policy, now: Time, check: Check, faults: set<Write>)
      returns (result: Result, checked: bool)
      modifies this
      ensures Outcome(Columns(), result, checked) == Verify(p, old(Columns()), now, check, faults)
      ensures result == Verified <==>
                && !IsLocked(old(Columns()), now) && check.Match? && faults !! {ResetAfterSuccess, UpdateLastLogin}
                && (old(lockedUntil).Some? ==> ResetExpiredLock !in faults)
      ensures p.duration > 0 ==> forall u :: result == Locked(u) <==> lockedUntil == Some(u) && u > now
    {
      var user := Columns();
      if user.lockedUntil.Some? && user.lockedUntil.value > now { return Locked(user.lockedUntil.value), false; }
      if user.lockedUntil.Some? {
        if ResetExpiredLock in faults { return Error, false; }
        ResetLoginAttempts();
      }
      if check.NoPasswordSet? { return InvalidCredentials, false; }
      if check.MalformedHash? { return Error, false; }
      if check.Mismatch? {
        if IncrementAttempts in faults { return Error, true; }
        IncrementFailedLoginAttempts(now);
        var withinWindow := user.lastFailed.Some? && now - user.lastFailed.value <= p.window;
        if attempts >= p.maxAttempts && withinWindow {
          if LockAccount in faults { return Error, true; }
          lockedUntil := Some(now + p.duration);
          return Locked(now + p.duration), true;
        }
        return InvalidCredentials, true;
      }
      if ResetAfterSuccess in faults { return Error, true; }
      ResetLoginAttempts();
      if UpdateLastLogin in faults { return Error, true; }
      return Verified, true;
    }
  }

  // ---------- Runs on one account ----------

  function Step(p: Policy, a: Account, e: Event): (b: Account) {
    match e
    case Attempt(now, check, faults) => Verify(p, a, now, check, faults).account
    case Unlock(_) => a.(lockedUntil := None)
  }

  /** The account after the first `i` events of a run that starts clean. */
  function After(p: Policy, es: seq<Event>, i: nat): (a: Account)
    requires i <= |es|
  {
    if i == 0 then CLEAN else Step(p, After(p, es, i - 1), es[i - 1])
  }

  /** The clock does not go back, from `start` on. */
  predicate Ordered(start: Time, es: seq<Event>) {
    && (forall i :: 0 <= i < |es| ==> start <= es[i].now)
    && (forall i, j :: 0 <= i <= j < |es| ==> es[i].now <= es[j].now)
  }

  function Clock(start: Time, es: seq<Event>, i: nat): (t: Time)
    requires i <= |es|
  {
    if i == 0 then start else es[i - 1].now
  }

  // ---------- The lock invariant ----------

  /** Attempt `i` compared the password. */
  predicate Checked(p: Policy, es: seq<Event>, i: nat)
    requires i < |es|
  {
    es[i].Attempt? && Verify(p, After(p, es, i), es[i].now, es[i].check, es[i].faults).checked
  }

  /** Attempt `i` compared a wrong password. */
  predicate FailedCheck(p: Policy, es: seq<Event>, i: nat)
    requires i < |es|
  {
    Checked(p, es, i) && es[i].check.Mismatch?
  }

  /** Attempt `i` cleared the counter: after a success, or on finding a lock that has run out. */
  predicate Clears(p: Policy, es: seq<Event>, i: nat)
    requires i < |es|
  {
    && es[i].Attempt?
    && var a := After(p, es, i);
       && !IsLocked(a, es[i].now)
       && (|| (a.lockedUntil.Some? && ResetExpiredLock !in es[i].faults)
           || (a.lockedUntil.None? && es[i].check.Match? && ResetAfterSuccess !in es[i].faults))
  }

  /** The failed checks among events `i` to `j` whose increment was written. */
  function Recorded(p: Policy, es: seq<Event>, i: nat, j: nat): (n: nat)
    requires i <= j <= |es|
    decreases j - i
  {
    if i == j then 0
    else Recorded(p, es, i, j - 1)
         + if FailedCheck(p, es, j - 1) && IncrementAttempts !in es[j - 1].faults then 1 else 0
  }

  /** The last of the first `i` events that cleared the counter, or the start of the run. */
  function LastClear(p: Policy, es: seq<Event>, i: nat): (k: nat)
    requires i <= |es|
    ensures k <= i
  {
    if i == 0 then 0 else if Clears(p, es, i - 1) then i - 1 else LastClear(p, es, i - 1)
  }

  /**
   In every reachable state the counter is the number of failures recorded since it was last cleared,
   with that of the clearing attempt itself, if it found a lock that had run out and then failed.
   */
  lemma {:induction false} CounterCountsFailures(p: Policy, es: seq<Event>, i: nat)
    requires i <= |es|
    ensures After(p, es, i).attempts == Recorded(p, es, LastClear(p, es, i), i)
  {
    if i == 0 {
    } else {
      CounterCountsFailures(p, es, i - 1);
      if Clears(p, es, i - 1) { assert Recorded(p, es, i - 1, i - 1) == 0; }
    }
  }

  ghost predicate LockInv(p: Policy, a: Account, now: Time) {
    && (a.attempts > 0 <==> a.lastFailed.Some?)
    && (a.lastFailed.Some? ==> a.lastFailed.value <= now)
    && (a.lockedUntil.Some? ==> a.lastFailed.Some? && a.attempts >= p.maxAttempts
                                && a.lockedUntil.value == a.lastFailed.value + p.duration)
  }

  /** A lock is set only with the counter at the limit, and ends a full duration after the last failure. */
  lemma {:induction false} LockInvariant(p: Policy, start: Time, es: seq<Event>, i: nat)
    requires Ordered(start, es) && i <= |es|
    ensures LockInv(p, After(p, es, i), Clock(start, es, i))
  {
    if i == 0 {
    } else {
      LockInvariant(p, start, es, i - 1);
    }
  }

  /** From the moment it is set until it runs out, a lock stops every attempt before the password is compared. */
  lemma {:induction false} LockHolds(p: Policy, es: seq<Event>, i: nat, j: nat, until: Time)
    requires i <= j < |es| && After(p, es, i).lockedUntil == Some(until)
    requires forall k :: i <= k <= j ==> es[k].Attempt? && es[k].now < until
    ensures After(p, es, j) == After(p, es, i) && !Checked(p, es, j)
    ensures Verify(p, After(p, es, j), es[j].now, es[j].check, es[j].faults).result == Locked(until)
  {
    if i == j {
    } else {
      LockHolds(p, es, i, j - 1, until);
    }
  }

  // ---------- The guess bound ----------

  /** What happened in the first events of a run. `expiries` and `lapses` are what time paid for. */
  datatype Tally = Tally(failed: nat, successes: nat, unlocks: nat, faulty: nat, expiries: nat, lapses: nat)

  function Threshold(p: Policy): (m: nat)
    ensures m >= 2 && m >= p.maxAttempts
  {
    if p.maxAttempts < 2 then 2 else p.maxAttempts
  }

  /** The attempt finds a lock that has run out and clears it. */
  predicate Expires(a: Account, e: Event) {
    e.Attempt? && a.lockedUntil.Some? && !IsLocked(a, e.now) && ResetExpiredLock !in e.faults
  }

  /** A failure past the threshold that does not lock because the previous one is longer ago than the window. */
  predicate Lapses(p: Policy, a: Account, e: Event) {
    e.Attempt? && a.lockedUntil.None? && e.check.Mismatch? && IncrementAttempts !in e.faults
    && a.attempts + 1 >= Threshold(p) && !WithinWindow(p, a, e.now)
  }

  /** The count of failures that one more makes, where a lock that has run out starts it anew. */
  function NextCount(a: Account): (n: nat) {
    if a.lockedUntil.Some? then 1 else a.attempts + 1
  }

  /** A statement the attempt reaches fails. */
  predicate WriteFails(p: Policy, a: Account, e: Event) {
    && e.Attempt? && !IsLocked(a, e.now)
    && (|| (a.lockedUntil.Some? && ResetExpiredLock in e.faults)
        || (e.check.Match? && (ResetAfterSuccess in e.faults || UpdateLastLogin in e.faults))
        || (e.check.Mismatch? && (|| IncrementAttempts in e.faults
                                  || (LockAccount in e.faults && WithinWindow(p, a, e.now)
                                      && NextCount(a) >= p.maxAttempts))))
  }

  /** Faults on statements that are not reached change nothing. */
  lemma UnreachedFaultsAreHarmless(p: Policy, a: Account, e: Event)
    requires e.Attempt? && !WriteFails(p, a, e)
    ensures Verify(p, a, e.now, e.check, e.faults) == Verify(p, a, e.now, e.check, {})
  {}

  function One(b: bool): (n: nat) {
    if b then 1 else 0
  }

  function Count(p: Policy, a: Account, e: Event, t: Tally): (u: Tally) {
    var o := if e.Attempt? then Verify(p, a, e.now, e.check, e.faults) else Outcome(a, Error, false);
    Tally(t.failed + One(o.checked && e.check.Mismatch?),
          t.successes + One(o.checked && e.check.Match? && ResetAfterSuccess !in e.faults),
          t.unlocks + One(e.Unlock?),
          t.faulty + One(WriteFails(p, a, e)),
          t.expiries + One(Expires(a, e)),
          t.lapses + One(Lapses(p, a, e)))
  }

  function Tallied(p: Policy, es: seq<Event>, i: nat): (t: Tally)
    requires i <= |es|
  {
    if i == 0 then Tally(0, 0, 0, 0, 0, 0)
    else Count(p, After(p, es, i - 1), es[i - 1], Tallied(p, es, i - 1))
  }

  /** The failures of the current series that nothing has paid for yet. */
  function Credit(p: Policy, a: Account): (c: nat)
    ensures c <= Threshold(p)
  {
    var cap := if a.lockedUntil.Some? then Threshold(p) else Threshold(p) - 1;
    if a.attempts < cap then a.attempts else cap
  }

  /** Failures less what events and credit account for; `series` stands for Threshold * (expiries + successes). */
  ghost predicate PaidFor(p: Policy, a: Account, t: Tally, series: int) {
    t.failed <= series + t.lapses + t.unlocks + t.faulty + Credit(p, a)
  }

  lemma FailuresArePaidFor(p: Policy, a: Account, e: Event, t: Tally, series: int, now: Time)
    requires PaidFor(p, a, t, series) && LockInv(p, a, now) && now <= e.now
    ensures var u, b := Count(p, a, e, t), Step(p, a, e);
            PaidFor(p, b, u, series + Threshold(p) * (u.expiries - t.expiries + (u.successes - t.successes)))
  {
    var u := Count(p, a, e, t);
    var n := u.expiries - t.expiries + (u.successes - t.successes);
    assert 0 <= n <= 2;
    assert Threshold(p) * n == if n == 0 then 0 else if n == 1 then Threshold(p) else Threshold(p) + Threshold(p);
  }

  /** The time up to which the run has been charged. */
  function Marker(a: Account, now: Time): (t: Time) {
    if a.lastFailed.Some? then a.lastFailed.value else now
  }

  /** Each expiry takes a full duration, each lapse more than a window, and these stretches do not overlap. */
  lemma TimePays(p: Policy, a: Account, e: Event, t: Tally, now: Time)
    requires LockInv(p, a, now) && now <= e.now && p.duration > 0 && p.window > 0
    ensures var u, b := Count(p, a, e, t), Step(p, a, e);
            && (u.expiries > t.expiries ==> Marker(b, e.now) >= Marker(a, now) + p.duration && u.lapses == t.lapses)
            && (u.lapses > t.lapses ==> Marker(b, e.now) >= Marker(a, now) + p.window + 1 && u.expiries == t.expiries)
            && Marker(b, e.now) >= Marker(a, now)
  {}

  lemma {:induction false} FailureAccounting(p: Policy, start: Time, es: seq<Event>, i: nat)
    requires Ordered(start, es) && i <= |es|
    ensures var t := Tallied(p, es, i);
            PaidFor(p, After(p, es, i), t, Threshold(p) * (t.expiries + t.successes))
  {
    if i == 0 {
    } else {
      FailureAccounting(p, start, es, i - 1);
      LockInvariant(p, start, es, i - 1);
      var t, u := Tallied(p, es, i - 1), Tallied(p, es, i);
      FailuresArePaidFor(p, After(p, es, i - 1), es[i - 1], t, Threshold(p) * (t.expiries + t.successes),
                         Clock(start, es, i - 1));
      Distribute(Threshold(p), t.expiries + t.successes, u.expiries - t.expiries + (u.successes - t.successes));
    }
  }

  /** One step of the time account, in numbers. */
  lemma AddCharge(d: int, g: int, x: int, y: int, x': int, y': int, m: int, m': int, start: int)
    requires x * d + y * g <= m - start
    requires (x' == x && y' == y && m <= m') || (x' == x + 1 && y' == y && m + d <= m')
             || (x' == x && y' == y + 1 && m + g <= m')
    ensures x' * d + y' * g <= m' - start
  {
    Distribute(d, x, 1);
    Distribute(g, y, 1);
  }

  lemma {:induction false} TimeAccounting(p: Policy, start: Time, es: seq<Event>, i: nat)
    requires IsPolicy(p) && Ordered(start, es) && i <= |es|
    ensures var t := Tallied(p, es, i);
            t.expiries * p.duration + t.lapses * (p.window + 1) <= Marker(After(p, es, i), Clock(start, es, i)) - start
  {
    if i == 0 {
    } else {
      TimeAccounting(p, start, es, i - 1);
      LockInvariant(p, start, es, i - 1);
      var t, u, now := Tallied(p, es, i - 1), Tallied(p, es, i), Clock(start, es, i - 1);
      TimePays(p, After(p, es, i - 1), es[i - 1], t, now);
      AddCharge(p.duration, p.window + 1, t.expiries, t.lapses, u.expiries, u.lapses, Marker(After(p, es, i - 1), now),
                Marker(After(p, es, i), Clock(start, es, i)), start);
    }
  }

  lemma Distribute(m: int, x: int, y: int)
    ensures m * (x + y) == m * x + m * y
    ensures (x + y) * m == x * m + y * m
  {}

  lemma DivideBy(n: nat, d: int, total: int)
    requires d > 0 && n * d <= total
    ensures n <= total / d
  {
    var q := total / d;
    assert total == q * d + total % d;
    if n > q {
      MulNonNegative(n - q - 1, d);
      Distribute(d, n - q - 1, q + 1);
      Distribute(d, q, 1);
      assert false;
    }
  }

  lemma MulNonNegative(x: int, y: int)
    requires x >= 0 && y >= 0
    ensures x * y >= 0
  {}

  /**
   The bound for every run from a clean counter: with S successes, U admin unlocks and F calls in
   which a write failed, over a time span T, the wrong passwords compared number at most
   M * (1 + S + T / Duration) + T / Window + U + F, where M = max(MaxAttempts, 2).
   */
  lemma GuessBound(p: Policy, start: Time, es: seq<Event>, i: nat)
    requires IsPolicy(p) && Ordered(start, es) && i <= |es|
    ensures var t, span := Tallied(p, es, i), Clock(start, es, i) - start;
            t.failed <= Threshold(p) * (1 + t.successes + span / p.duration) + span / p.window + t.unlocks + t.faulty
  {
    FailureAccounting(p, start, es, i);
    TimeAccounting(p, start, es, i);
    LockInvariant(p, start, es, i);
    var t, a, m := Tallied(p, es, i), After(p, es, i), Threshold(p);
    var span := Clock(start, es, i) - start;
    MulNonNegative(t.expiries, p.duration);
    MulNonNegative(t.lapses, p.window + 1);
    DivideBy(t.expiries, p.duration, span);
    assert t.lapses * (p.window + 1) == t.lapses * p.window + t.lapses by { Distribute(t.lapses, p.window, 1); }
    DivideBy(t.lapses, p.window, span);
    var spare := span / p.duration - t.expiries;
    MulNonNegative(m, spare);
    Distribute(m, t.expiries + t.successes, 1 + spare);
    assert t.expiries + t.successes + (1 + spare) == 1 + t.successes + span / p.duration;
    Distribute(m, 1, spare);
  }

  /** A run without success, unlock or failing write: at most M * (1 + T / Duration) + T / Window guesses. */
  lemma GuessBoundPlain(p: Policy, start: Time, es: seq<Event>)
    requires IsPolicy(p) && Ordered(start, es)
    requires Tallied(p, es, |es|).successes == 0 && Tallied(p, es, |es|).unlocks == 0
             && Tallied(p, es, |es|).faulty == 0
    ensures var span := Clock(start, es, |es|) - start;
            Tallied(p, es, |es|).failed <= Threshold(p) * (1 + span / p.duration) + span / p.window
  {
    GuessBound(p, start, es, |es|);
  }

  // ---------- The answers ----------

  /** What attempt `i` is answered. */
  function Answer(p: Policy, es: seq<Event>, i: nat): (r: Result)
    requires i < |es| && es[i].Attempt?
  {
    Verify(p, After(p, es, i), es[i].now, es[i].check, es[i].faults).result
  }

  /**
   Every attempt of every run is answered by what the account was, what the password came to and what
   failed; and it is answered "locked until u" exactly when it leaves the account locked until u.
   */
  lemma AnswersIff(p: Policy, es: seq<Event>, i: nat)
    requires p.duration > 0 && i < |es| && es[i].Attempt?
    ensures var a, b, e, r := After(p, es, i), After(p, es, i + 1), es[i], Answer(p, es, i);
            var open := !IsLocked(a, e.now);
            && (r == Verified <==> open && e.check.Match? && !WriteFails(p, a, e))
            && (forall u :: r == Locked(u) <==> b.lockedUntil == Some(u) && u > e.now)
            && (r == InvalidCredentials <==>
                  open && !WriteFails(p, a, e)
                  && (e.check.NoPasswordSet? || (e.check.Mismatch? && !IsLocked(b, e.now))))
            && (r == Error <==> open && (WriteFails(p, a, e) || e.check.MalformedHash?))
  {}

  /** What an attempt does to the account: when it locks it, until when, and what it leaves otherwise. */
  lemma AccountAfterAttempt(p: Policy, es: seq<Event>, i: nat)
    requires p.duration > 0 && i < |es| && es[i].Attempt?
    ensures var a, b, e := After(p, es, i), After(p, es, i + 1), es[i];
            if IsLocked(a, e.now) then b == a
            else
              && (IsLocked(b, e.now) <==>
                    e.check.Mismatch? && !WriteFails(p, a, e) && WithinWindow(p, a, e.now)
                    && NextCount(a) >= p.maxAttempts)
              && (IsLocked(b, e.now) ==> b.lockedUntil == Some(e.now + p.duration))
              && (e.check.Match? && !WriteFails(p, a, e) ==> b == CLEAN)
              && (e.check.Mismatch? && !WriteFails(p, a, e) ==> b.attempts == NextCount(a)
                                                                && b.lastFailed == Some(e.now))
  {}

  /** The attempts among the first `i` events that were answered `Verified`, and those with the right password. */
  function Admissions(p: Policy, es: seq<Event>, i: nat): (n: nat)
    requires i <= |es|
  {
    if i == 0 then 0
    else Admissions(p, es, i - 1) + One(es[i - 1].Attempt? && Answer(p, es, i - 1) == Verified)
  }

  function RightPasswords(es: seq<Event>, i: nat): (n: nat)
    requires i <= |es|
  {
    if i == 0 then 0 else RightPasswords(es, i - 1) + One(es[i - 1].Attempt? && es[i - 1].check.Match?)
  }

  /** Nobody is let in without the right password: there are never more admissions than matches. */
  lemma {:induction false} AdmittedOnlyByMatch(p: Policy, es: seq<Event>, i: nat)
    requires p.duration > 0 && i <= |es|
    ensures Admissions(p, es, i) <= Tallied(p, es, i).successes <= RightPasswords(es, i)
  {
    if i == 0 {
    } else {
      AdmittedOnlyByMatch(p, es, i - 1);
      if es[i - 1].Attempt? { AnswersIff(p, es, i - 1); }
    }
  }
}
