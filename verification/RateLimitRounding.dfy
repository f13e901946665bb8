/**
 The rate limiter with rounded buckets. The program keeps tokens in floating point, so what a
 request meets is the exact refill plus an error, and what is compared with a whole token may be
 off once more. Here every request carries its two errors; a run is within (eps, delta) if none
 is larger. All levels are real numbers in units of 1/UNIT token.
 */
module RateLimitRounding {
  import opened Prelude
  import opened Numbers
  import opened RateLimitTheorems
  import opened RateLimitTight
  import opened RateLimit

  datatype RoundedBucket = RoundedBucket(tokens: real, last: Time)
  datatype RoundedEntry = RoundedEntry(bucket: RoundedBucket, lastSeen: Time)
  type RoundedEntries = map<string, RoundedEntry>

  /**
   `err` is added to the refilled tokens before they are capped, `slack` to what is then compared. A
   new bucket is full: it was last filled at the zero time, and capping leaves no error.
   */
  datatype RoundedEvent = Ask(now: Time, key: string, err: real, slack: real) | Sweep(now: Time)

  function Cap(l: Limits): (c: real) {
    Capacity(l) as real
  }

  /** What flows in between two times, exactly. */
  function Inflow(l: Limits, s: Time, t: Time): (r: real) {
    Refill(l.perMin, if t < s then 0 else t - s) as real
  }

  function Refilled(l: Limits, b: RoundedBucket, now: Time, err: real): (t: real)
    ensures t <= Cap(l)
  {
    var t := b.tokens + Inflow(l, b.last, now) + err;
    if t > Cap(l) then Cap(l) else t
  }

  predicate RoundedAllows(l: Limits, tokens: real) {
    l.burst >= 1 && UNIT as real - tokens < l.perMin as real
  }

  function RoundedServe(l: Limits, b: RoundedBucket, now: Time, err: real, slack: real): (r: (RoundedBucket, bool)) {
    var t := Refilled(l, b, now, err);
    if RoundedAllows(l, t + slack) then (RoundedBucket(t - UNIT as real, now), true)
    else (if l.burst < 1 then b else RoundedBucket(t, now), false)
  }

  function BucketFor(l: Limits, entries: RoundedEntries, key: string, now: Time): (b: RoundedBucket) {
    if key in entries then entries[key].bucket else RoundedBucket(Cap(l), now)
  }

  /** The entries after an event, and whether it was a request that was allowed. */
  function RoundedStep(l: Limits, entries: RoundedEntries, e: RoundedEvent): (r: (RoundedEntries, bool)) {
    match e
    case Ask(now, key, err, slack) =>
      var served := RoundedServe(l, BucketFor(l, entries, key, now), now, if key in entries then err else 0.0, slack);
      (entries[key := RoundedEntry(served.0, now)], served.1)
    case Sweep(now) => (map k | k in entries && !(now - entries[k].lastSeen > l.ttl) :: entries[k], false)
  }

  function RoundedAt(l: Limits, es: seq<RoundedEvent>, i: nat): (entries: RoundedEntries)
    requires i <= |es|
  {
    if i == 0 then map[] else RoundedStep(l, RoundedAt(l, es, i - 1), es[i - 1]).0
  }

  predicate Asks(e: RoundedEvent, key: string) {
    e.Ask? && e.key == key
  }

  predicate RoundedGrants(l: Limits, es: seq<RoundedEvent>, key: string, i: nat)
    requires i < |es|
  {
    Asks(es[i], key) && RoundedStep(l, RoundedAt(l, es, i), es[i]).1
  }

  /** How many requests for `key` among events `i` to `j` are allowed ... */
  function RoundedGranted(l: Limits, es: seq<RoundedEvent>, key: string, i: nat, j: nat): (n: nat)
    requires i <= j <= |es|
    decreases j - i
  {
    if i == j then 0 else RoundedGranted(l, es, key, i, j - 1) + if RoundedGrants(l, es, key, j - 1) then 1 else 0
  }

  /** ... and how many there are. */
  function Asked(es: seq<RoundedEvent>, key: string, i: nat, j: nat): (n: nat)
    requires i <= j <= |es|
    decreases j - i
  {
    if i == j then 0 else Asked(es, key, i, j - 1) + if Asks(es[j - 1], key) then 1 else 0
  }

  predicate InOrder(es: seq<RoundedEvent>) {
    forall i, j :: 0 <= i <= j < |es| ==> es[i].now <= es[j].now
  }

  predicate Bounded(e: RoundedEvent, eps: real, delta: real) {
    e.Ask? ==> -eps <= e.err <= eps && -delta <= e.slack <= delta
  }

  predicate Within(es: seq<RoundedEvent>, eps: real, delta: real) {
    forall i :: 0 <= i < |es| ==> Bounded(es[i], eps, delta)
  }

  // ---------- Accounts ----------

  lemma InflowAdds(l: Limits, s: Time, t: Time, u: Time)
    requires l.perMin > 0 && s <= t <= u
    ensures Inflow(l, s, u) == Inflow(l, s, t) + Inflow(l, t, u)
    ensures Inflow(l, t, u) >= 0.0
  {
    RefillAdds(l.perMin, t - s, u - t);
    assert (t - s) + (u - t) == u - s;
    RefillGrows(l.perMin, 0, u - t);
  }

  /** The tokens a request for `key` would meet but for rounding. */
  function RoundedLevel(l: Limits, entries: RoundedEntries, key: string, now: Time): (t: real)
    ensures t <= Cap(l)
  {
    Refilled(l, BucketFor(l, entries, key, now), now, 0.0)
  }

  ghost predicate InTime(entries: RoundedEntries, now: Time) {
    forall k :: k in entries ==> entries[k].bucket.last <= entries[k].lastSeen <= now
  }

  /** `n` tokens, in units. */
  function Cost(n: nat): (c: real) {
    Refill(UNIT, n) as real
  }

  /**
   The account of one key since `start`, with `n` requests granted and a drift of `d`: its bucket
   holds at most a full one, plus the inflow and the drift, less the cost; and when it was last
   seen the cost was less than a nanosecond's inflow above that.
   */
  ghost predicate Account(l: Limits, entries: RoundedEntries, key: string, start: Time, now: Time, n: nat, d: real,
                          delta: real)
  {
    && RoundedLevel(l, entries, key, now) <= Cap(l) + Inflow(l, start, now) + d - Cost(n)
    && (key in entries && n > 0 ==>
          start <= entries[key].lastSeen && Cost(n) < Cap(l) + Inflow(l, start, entries[key].lastSeen + 1) + d + delta)
  }

  /** Even when it was emptied a little early, a bucket is full before it can be evicted. */
  predicate RefillsAnyway(l: Limits, delta: real) {
    Inflow(l, 0, l.ttl) >= Cap(l) + delta
  }

  lemma TimePasses(l: Limits, entries: RoundedEntries, key: string, start: Time, s: Time, t: Time, n: nat, d: real,
                   delta: real)
    requires IsLimits(l) && InTime(entries, s) && start <= s <= t && Account(l, entries, key, start, s, n, d, delta)
    ensures Account(l, entries, key, start, t, n, d, delta)
  {
    InflowAdds(l, start, s, t);
    if key in entries { InflowAdds(l, entries[key].bucket.last, s, t); }
  }

  lemma EvictionIsCovered(l: Limits, entries: RoundedEntries, key: string, start: Time, now: Time, n: nat, d: real,
                          delta: real)
    requires IsLimits(l) && d >= 0.0 && RefillsAnyway(l, delta) && start <= now
             && Account(l, entries, key, start, now, n, d, delta)
    requires key in entries && now - entries[key].lastSeen > l.ttl
    ensures Cost(n) <= Inflow(l, start, now) + d
  {
    InflowAdds(l, start, start, now);
    if n > 0 {
      var seen := entries[key].lastSeen;
      InflowAdds(l, start, seen + 1, now);
      RefillGrows(l.perMin, l.ttl, now - (seen + 1));
    }
  }

  lemma RequestIsCharged(l: Limits, entries: RoundedEntries, e: RoundedEvent, start: Time, n: nat, d: real, eps: real,
                         delta: real)
    requires IsLimits(l) && e.Ask? && Bounded(e, eps, delta) && eps >= 0.0 && start <= e.now
    requires Account(l, entries, e.key, start, e.now, n, d, delta) && InTime(entries, e.now)
    ensures var r := RoundedStep(l, entries, e); Account(l, r.0, e.key, start, e.now, if r.1 then n + 1 else n, d + eps,
                                                         delta)
  {
    var b := BucketFor(l, entries, e.key, e.now);
    var r := RoundedStep(l, entries, e);
    InflowAdds(l, start, e.now, e.now + 1);
    assert Refill(l.perMin, 1) == Refill(l.perMin, 0) + l.perMin;
    var t := Refilled(l, b, e.now, if e.key in entries then e.err else 0.0);
    assert t <= RoundedLevel(l, entries, e.key, e.now) + eps;
    if r.1 {
      assert Cost(n + 1) == Cost(n) + UNIT as real;
      assert RoundedLevel(l, r.0, e.key, e.now) <= t - UNIT as real;
    } else if n > 0 && e.key in entries {
      InflowAdds(l, start, entries[e.key].lastSeen + 1, e.now + 1);
    }
  }

  lemma StepIsCharged(l: Limits, entries: RoundedEntries, e: RoundedEvent, key: string, start: Time, before: Time,
                      n: nat, d: real, eps: real, delta: real)
    requires IsLimits(l) && Bounded(e, eps, delta) && eps >= 0.0 && d >= 0.0 && RefillsAnyway(l, delta)
    requires start <= before <= e.now && InTime(entries, before) && Account(l, entries, key, start, before, n, d, delta)
    ensures var r := RoundedStep(l, entries, e);
            && InTime(r.0, e.now)
            && Account(l, r.0, key, start, e.now, if Asks(e, key) && r.1 then n + 1 else n,
                       if Asks(e, key) then d + eps else d, delta)
  {
    TimePasses(l, entries, key, start, before, e.now, n, d, delta);
    if Asks(e, key) {
      RequestIsCharged(l, entries, e, start, n, d, eps, delta);
    } else if e.Sweep? && key in entries && e.now - entries[key].lastSeen > l.ttl {
      EvictionIsCovered(l, entries, key, start, e.now, n, d, delta);
    }
  }

  /** `n` errors of at most `eps`: their product, as `DriftIsProduct` says. */
  function Drift(eps: real, n: nat): (d: real) {
    if n == 0 then 0.0 else Drift(eps, n - 1) + eps
  }

  lemma {:induction false} DriftIsProduct(eps: real, n: nat)
    requires eps >= 0.0
    ensures Drift(eps, n) == eps * (n as real) && Drift(eps, n) >= 0.0
  {
    if n == 0 {
    } else {
      DriftIsProduct(eps, n - 1);
      assert eps * (n as real) == eps * ((n - 1) as real) + eps;
    }
  }

  /** The clock after the events from `i` up to `j`. */
  function Reached(es: seq<RoundedEvent>, i: nat, j: nat): (t: Time)
    requires i <= j <= |es| && i < |es|
  {
    if i == j then es[i].now else es[j - 1].now
  }

  lemma {:induction false} InTimeAt(l: Limits, es: seq<RoundedEvent>, i: nat)
    requires InOrder(es) && i < |es|
    ensures InTime(RoundedAt(l, es, i), es[i].now)
  {
    if i == 0 {
    } else {
      InTimeAt(l, es, i - 1);
      assert es[i - 1].now <= es[i].now;
    }
  }

  /** The account of the key from event `i` up to event `j`. */
  ghost predicate Charged(l: Limits, es: seq<RoundedEvent>, key: string, i: nat, j: nat, eps: real, delta: real)
    requires i <= j <= |es| && i < |es|
  {
    var entries, now, n, d := RoundedAt(l, es, j), Reached(es, i, j), RoundedGranted(l, es, key, i, j),
        Asked(es, key, i, j);
    InTime(entries, now) && Account(l, entries, key, es[i].now, now, n, Drift(eps, d), delta)
  }

  lemma OneMoreCharged(l: Limits, es: seq<RoundedEvent>, key: string, i: nat, j: nat, eps: real, delta: real)
    requires IsLimits(l) && InOrder(es) && Within(es, eps, delta) && eps >= 0.0 && RefillsAnyway(l, delta)
    requires i < j <= |es| && Charged(l, es, key, i, j - 1, eps, delta)
    ensures Charged(l, es, key, i, j, eps, delta)
  {
    var n, d := RoundedGranted(l, es, key, i, j - 1), Asked(es, key, i, j - 1);
    DriftIsProduct(eps, d);
    assert Bounded(es[j - 1], eps, delta);
    StepIsCharged(l, RoundedAt(l, es, j - 1), es[j - 1], key, es[i].now, Reached(es, i, j - 1), n, Drift(eps, d), eps,
                  delta);
  }

  lemma {:induction false} RunIsCharged(l: Limits, es: seq<RoundedEvent>, key: string, i: nat, j: nat, eps: real,
                                        delta: real)
    requires IsLimits(l) && InOrder(es) && Within(es, eps, delta) && eps >= 0.0 && RefillsAnyway(l, delta)
    requires i <= j <= |es| && i < |es|
    ensures Charged(l, es, key, i, j, eps, delta)
    decreases j
  {
    if i == j {
      InTimeAt(l, es, i);
    } else {
      RunIsCharged(l, es, key, i, j - 1, eps, delta);
      OneMoreCharged(l, es, key, i, j, eps, delta);
    }
  }

  /**
   Whatever the account says, the cost is less than a full bucket, the inflow with a nanosecond more, and
   the errors.
   */
  lemma CostIsCovered(l: Limits, entries: RoundedEntries, key: string, start: Time, now: Time, n: nat, d: real,
                      delta: real)
    requires IsLimits(l) && d >= 0.0 && delta >= 0.0 && start <= now
    requires InTime(entries, now) && Account(l, entries, key, start, now, n, d, delta)
    ensures Cost(n) < Cap(l) + Inflow(l, start, now + 1) + d + delta
  {
    InflowAdds(l, start, now, now + 1);
    InflowAdds(l, start, start, now);
    assert Refill(l.perMin, 1) == Refill(l.perMin, 0) + l.perMin;
    MulMono(UNIT, 0, l.burst);
    if n > 0 && key in entries { InflowAdds(l, start, entries[key].lastSeen + 1, now + 1); }
  }

  lemma RunCostIsCovered(l: Limits, es: seq<RoundedEvent>, key: string, i: nat, j: nat, eps: real, delta: real)
    requires IsLimits(l) && InOrder(es) && Within(es, eps, delta) && eps >= 0.0 && delta >= 0.0
    requires RefillsAnyway(l, delta) && i < j <= |es|
    ensures Cost(RoundedGranted(l, es, key, i, j))
            < Cap(l) + Inflow(l, es[i].now, es[j - 1].now + 1) + Drift(eps, Asked(es, key, i, j)) + delta
  {
    RunIsCharged(l, es, key, i, j, eps, delta);
    DriftIsProduct(eps, Asked(es, key, i, j));
    CostIsCovered(l, RoundedAt(l, es, j), key, es[i].now, es[j - 1].now, RoundedGranted(l, es, key, i, j),
                  Drift(eps, Asked(es, key, i, j)), delta);
  }

  lemma InNumbers(l: Limits, s: Time, t: Time, n: nat)
    requires s <= t
    ensures Inflow(l, s, t) == (l.perMin * (t - s)) as real && Cost(n) == (UNIT * n) as real
  {
    RefillIsProduct(l.perMin, t - s);
    RefillIsProduct(UNIT, n);
  }

  /**
   Over any stretch of any run whose errors are within (eps, delta), cleanup ticks included: a token
   for each allowed request of a key costs less than a full bucket, the inflow of the stretch and a
   nanosecond more, and the errors, one `eps` for each request of the key and one `delta`.
   */
  lemma RoundedThroughput(l: Limits, es: seq<RoundedEvent>, key: string, i: nat, j: nat, eps: real, delta: real)
    requires IsLimits(l) && InOrder(es) && Within(es, eps, delta) && eps >= 0.0 && delta >= 0.0
    requires (l.perMin * l.ttl) as real >= Cap(l) + delta && i < j <= |es|
    ensures (UNIT * RoundedGranted(l, es, key, i, j)) as real
            < Cap(l) + (l.perMin * (es[j - 1].now + 1 - es[i].now)) as real + Drift(eps, Asked(es, key, i, j)) + delta
  {
    assert RefillsAnyway(l, delta) by { InNumbers(l, 0, l.ttl, 0); }
    RunCostIsCovered(l, es, key, i, j, eps, delta);
    InNumbers(l, es[i].now, es[j - 1].now + 1, RoundedGranted(l, es, key, i, j));
  }

  /** Every route meets the condition, whatever its rate, as long as no comparison is off by more than four tokens. */
  lemma RoutesRefillAnyway(perMin: int, delta: real)
    requires perMin > 0 && delta <= (4 * UNIT) as real
    ensures var l := Limits(perMin, perMin, 5 * MINUTE); (l.perMin * l.ttl) as real >= Cap(l) + delta
  {
    MulMono(4 * UNIT, 1, perMin);
  }

  // ---------- Eviction ----------

  /** The limiter that never forgets, with the same errors. */
  function RoundedForgetless(l: Limits, es: seq<RoundedEvent>, i: nat): (entries: RoundedEntries)
    requires i <= |es|
  {
    if i == 0 then map[]
    else if es[i - 1].Sweep? then RoundedForgetless(l, es, i - 1)
    else RoundedStep(l, RoundedForgetless(l, es, i - 1), es[i - 1]).0
  }

  /** The bucket of `key` is in time, and holds no less than a nanosecond's inflow and the errors `d` below nothing. */
  ghost predicate AboveFloor(l: Limits, entries: RoundedEntries, key: string, now: Time, d: real) {
    key in entries ==>
      && entries[key].bucket.last <= entries[key].lastSeen <= now
      && entries[key].bucket.tokens >= -(l.perMin as real) - d
  }

  /** Whatever error comes next, the bucket is full. */
  ghost predicate SurelyFull(l: Limits, b: RoundedBucket, now: Time, eps: real) {
    b.last <= now && b.tokens + Inflow(l, b.last, now) - eps >= Cap(l)
  }

  /** The two limiters have the same entry for `key`, or one has evicted a bucket that is full in the other. */
  ghost predicate AgreeOn(l: Limits, entries: RoundedEntries, all: RoundedEntries, key: string, now: Time, eps: real) {
    && (key in entries ==> key in all && entries[key] == all[key])
    && (key !in entries && key in all ==> SurelyFull(l, all[key].bucket, now, eps))
  }

  lemma FloorAfterRequest(l: Limits, entries: RoundedEntries, e: RoundedEvent, d: real, eps: real, delta: real)
    requires IsLimits(l) && l.burst >= 1 && e.Ask? && Bounded(e, eps, delta) && eps >= 0.0 && d >= delta >= 0.0
    requires AboveFloor(l, entries, e.key, e.now, d)
    ensures AboveFloor(l, RoundedStep(l, entries, e).0, e.key, e.now, d + eps)
  {
    MulMono(UNIT, 1, l.burst);
    if e.key in entries { InflowAdds(l, entries[e.key].bucket.last, entries[e.key].bucket.last, e.now); }
  }

  lemma IdleIsFull(l: Limits, entries: RoundedEntries, key: string, now: Time, d: real, eps: real)
    requires IsLimits(l) && key in entries && AboveFloor(l, entries, key, now, d) && now - entries[key].lastSeen > l.ttl
    requires Inflow(l, 0, l.ttl) >= Cap(l) + d + eps
    ensures SurelyFull(l, entries[key].bucket, now, eps)
  {
    var b := entries[key].bucket;
    InflowAdds(l, b.last, b.last + l.ttl, b.last + l.ttl + 1);
    InflowAdds(l, b.last, b.last + l.ttl + 1, now);
    assert Refill(l.perMin, 1) == Refill(l.perMin, 0) + l.perMin;
  }

  lemma FullStays(l: Limits, b: RoundedBucket, s: Time, t: Time, eps: real)
    requires IsLimits(l) && SurelyFull(l, b, s, eps) && s <= t
    ensures SurelyFull(l, b, t, eps)
  {
    InflowAdds(l, b.last, s, t);
  }

  /** A request for the key: the same answer, and the same entry after it. */
  lemma RequestAgrees(l: Limits, entries: RoundedEntries, all: RoundedEntries, e: RoundedEvent, eps: real, delta: real)
    requires IsLimits(l) && l.burst >= 1 && e.Ask? && Bounded(e, eps, delta)
             && AgreeOn(l, entries, all, e.key, e.now, eps)
    ensures RoundedStep(l, entries, e).1 == RoundedStep(l, all, e).1
    ensures AgreeOn(l, RoundedStep(l, entries, e).0, RoundedStep(l, all, e).0, e.key, e.now, eps)
  {
    if e.key !in entries && e.key in all {
      assert Refilled(l, all[e.key].bucket, e.now, e.err) == Cap(l);
    }
  }

  /** Whatever one event does, the two limiters still agree on the key, and its bucket stays above the floor. */
  lemma StepAgreesOn(l: Limits, entries: RoundedEntries, all: RoundedEntries, e: RoundedEvent, key: string,
                     before: Time, d: real,
                     eps: real, delta: real)
    requires IsLimits(l) && l.burst >= 1 && Bounded(e, eps, delta) && eps >= 0.0 && d >= delta >= 0.0 && before <= e.now
    requires Inflow(l, 0, l.ttl) >= Cap(l) + d + eps
    requires AgreeOn(l, entries, all, key, before, eps) && AboveFloor(l, all, key, before, d)
    ensures var all' := if e.Sweep? then all else RoundedStep(l, all, e).0;
            && AgreeOn(l, RoundedStep(l, entries, e).0, all', key, e.now, eps)
            && AboveFloor(l, all', key, e.now, if Asks(e, key) then d + eps else d)
  {
    if key !in entries && key in all { FullStays(l, all[key].bucket, before, e.now, eps); }
    if Asks(e, key) {
      FloorAfterRequest(l, all, e, d, eps, delta);
      RequestAgrees(l, entries, all, e, eps, delta);
    } else if e.Sweep? && key in entries && e.now - entries[key].lastSeen > l.ttl {
      IdleIsFull(l, all, key, e.now, d, eps);
    }
  }

  lemma {:induction false} AskedGrows(es: seq<RoundedEvent>, key: string, i: nat, j: nat, eps: real)
    requires i <= j <= |es| && eps >= 0.0
    ensures Drift(eps, Asked(es, key, 0, i)) <= Drift(eps, Asked(es, key, 0, j))
    decreases j
  {
    if i == j {
    } else {
      AskedGrows(es, key, i, j - 1, eps);
    }
  }

  /** After `j` events the two limiters agree on the key, and its bucket is above the floor. */
  ghost predicate AgreeAfter(l: Limits, es: seq<RoundedEvent>, key: string, j: nat, eps: real, delta: real)
    requires j <= |es| && |es| > 0
  {
    var all, now := RoundedForgetless(l, es, j), Reached(es, 0, j);
    && AgreeOn(l, RoundedAt(l, es, j), all, key, now, eps)
    && AboveFloor(l, all, key, now, delta + Drift(eps, Asked(es, key, 0, j)))
  }

  lemma OneMoreAgrees(l: Limits, es: seq<RoundedEvent>, key: string, j: nat, eps: real, delta: real)
    requires IsLimits(l) && l.burst >= 1 && InOrder(es) && Within(es, eps, delta) && eps >= 0.0 && delta >= 0.0
    requires 0 < j <= |es| && AgreeAfter(l, es, key, j - 1, eps, delta)
    requires Inflow(l, 0, l.ttl) >= Cap(l) + delta + Drift(eps, Asked(es, key, 0, j - 1)) + eps
    ensures AgreeAfter(l, es, key, j, eps, delta)
  {
    DriftIsProduct(eps, Asked(es, key, 0, j - 1));
    assert Bounded(es[j - 1], eps, delta);
    StepAgreesOn(l, RoundedAt(l, es, j - 1), RoundedForgetless(l, es, j - 1), es[j - 1], key, Reached(es, 0, j - 1),
                 delta + Drift(eps, Asked(es, key, 0, j - 1)), eps, delta);
  }

  lemma {:induction false} RunsAgreeOn(l: Limits, es: seq<RoundedEvent>, key: string, j: nat, i: nat, eps: real,
                                       delta: real)
    requires IsLimits(l) && l.burst >= 1 && InOrder(es) && Within(es, eps, delta) && eps >= 0.0 && delta >= 0.0
    requires j <= i < |es| && Inflow(l, 0, l.ttl) >= Cap(l) + delta + Drift(eps, Asked(es, key, 0, i)) + eps
    ensures AgreeAfter(l, es, key, j, eps, delta)
  {
    if j == 0 {
    } else {
      RunsAgreeOn(l, es, key, j - 1, i, eps, delta);
      AskedGrows(es, key, j - 1, i, eps);
      OneMoreAgrees(l, es, key, j, eps, delta);
    }
  }

  lemma AgreeLater(l: Limits, es: seq<RoundedEvent>, key: string, i: nat, eps: real, delta: real)
    requires IsLimits(l) && InOrder(es) && i < |es| && AgreeAfter(l, es, key, i, eps, delta)
    ensures AgreeOn(l, RoundedAt(l, es, i), RoundedForgetless(l, es, i), key, es[i].now, eps)
  {
    var entries, all := RoundedAt(l, es, i), RoundedForgetless(l, es, i);
    if key !in entries && key in all { FullStays(l, all[key].bucket, Reached(es, 0, i), es[i].now, eps); }
  }

  lemma AnswersAgree(l: Limits, es: seq<RoundedEvent>, i: nat, eps: real, delta: real)
    requires IsLimits(l) && InOrder(es) && Within(es, eps, delta) && eps >= 0.0 && delta >= 0.0 && i < |es|
             && es[i].Ask?
    requires Inflow(l, 0, l.ttl) >= Cap(l) + delta + Drift(eps, Asked(es, es[i].key, 0, i)) + eps
    ensures RoundedStep(l, RoundedAt(l, es, i), es[i]).1 == RoundedStep(l, RoundedForgetless(l, es, i), es[i]).1
  {
    if l.burst >= 1 {
      RunsAgreeOn(l, es, es[i].key, i, i, eps, delta);
      AgreeLater(l, es, es[i].key, i, eps, delta);
      assert Bounded(es[i], eps, delta);
      RequestAgrees(l, RoundedAt(l, es, i), RoundedForgetless(l, es, i), es[i], eps, delta);
    }
  }

  /**
   Rounded or not, a request gets the answer a limiter that never forgets would give under the same
   errors, as long as the time to live covers the burst and the errors of the key's requests so far.
   */
  lemma RoundedEvictionIsInvisible(l: Limits, es: seq<RoundedEvent>, i: nat, eps: real, delta: real)
    requires IsLimits(l) && InOrder(es) && Within(es, eps, delta) && eps >= 0.0 && delta >= 0.0 && i < |es|
             && es[i].Ask?
    requires (l.perMin * l.ttl) as real >= Cap(l) + delta + Drift(eps, Asked(es, es[i].key, 0, i + 1))
    ensures RoundedStep(l, RoundedAt(l, es, i), es[i]).1 == RoundedStep(l, RoundedForgetless(l, es, i), es[i]).1
  {
    InNumbers(l, 0, l.ttl, 0);
    AnswersAgree(l, es, i, eps, delta);
  }

  // ---------- Without errors ----------

  predicate IsExact(e: RoundedEvent) {
    e.Ask? ==> e.err == 0.0 == e.slack
  }

  function Forget(e: RoundedEvent): (x: Event) {
    match e
    case Ask(now, key, _, _) => Request(now, key)
    case Sweep(now) => Tick(now)
  }

  function Remember(x: Event): (e: RoundedEvent) {
    match x
    case Request(now, key) => Ask(now, key, 0.0, 0.0)
    case Tick(now) => Sweep(now)
  }

  ghost predicate SameEvents(es: seq<RoundedEvent>, xs: seq<Event>) {
    |es| == |xs| && forall i {:trigger es[i]} {:trigger xs[i]} :: 0 <= i < |es| ==> xs[i] == Forget(es[i])
  }

  ghost predicate SameEntry(a: RoundedEntry, x: Entry) {
    a.lastSeen == x.lastSeen && a.bucket.last == x.bucket.last && a.bucket.tokens == x.bucket.tokens as real
  }

  ghost predicate SameEntries(entries: RoundedEntries, exact: Entries) {
    && entries.Keys == exact.Keys
    && forall k {:trigger SameEntry(entries[k], exact[k])} :: k in entries ==> SameEntry(entries[k], exact[k])
  }

  lemma StepIsExact(l: Limits, entries: RoundedEntries, exact: Entries, e: RoundedEvent)
    requires l.perMin > 0 && SameEntries(entries, exact) && IsExact(e)
    ensures var r, x := RoundedStep(l, entries, e), Step(l, exact, Forget(e));
            SameEntries(r.0, x.0) && (r.1 <==> x.1 == Some(Allowed))
  {
    var r, x := RoundedStep(l, entries, e), Step(l, exact, Forget(e));
    if e.Ask? {
      if e.key in entries { assert SameEntry(entries[e.key], exact[e.key]); }
      var b := BucketOf(l, exact, e.key, e.now);
      AllowsExactly(l, Tokens(l, b, e.now));
    }
    if e.Sweep? {
      forall k | k in entries ensures k in r.0 <==> k in x.0 { assert SameEntry(entries[k], exact[k]); }
    }
    assert r.0.Keys == x.0.Keys;
    forall k | k in r.0 ensures SameEntry(r.0[k], x.0[k]) {
      if k in entries { assert SameEntry(entries[k], exact[k]); }
    }
  }

  /** As long as there are no errors, the rounded limiter is the exact one. */
  lemma {:induction false} ExactSoFar(l: Limits, es: seq<RoundedEvent>, xs: seq<Event>, i: nat)
    requires l.perMin > 0 && SameEvents(es, xs) && i <= |es| && forall k :: 0 <= k < i ==> IsExact(es[k])
    ensures SameEntries(RoundedAt(l, es, i), At(l, xs, i))
  {
    if i == 0 {
    } else {
      ExactSoFar(l, es, xs, i - 1);
      StepIsExact(l, RoundedAt(l, es, i - 1), At(l, xs, i - 1), es[i - 1]);
      assert xs[i - 1] == Forget(es[i - 1]);
    }
  }

  lemma GrantIsExact(l: Limits, es: seq<RoundedEvent>, xs: seq<Event>, key: string, i: nat)
    requires l.perMin > 0 && SameEvents(es, xs) && i < |es| && forall k :: 0 <= k <= i ==> IsExact(es[k])
    ensures RoundedGrants(l, es, key, i) == Grants(l, xs, key, i)
  {
    ExactSoFar(l, es, xs, i);
    StepIsExact(l, RoundedAt(l, es, i), At(l, xs, i), es[i]);
    assert xs[i] == Forget(es[i]);
  }

  /** Without errors the same requests are granted as by the exact limiter. */
  lemma {:induction false} WithoutErrorsExact(l: Limits, es: seq<RoundedEvent>, xs: seq<Event>, key: string, i: nat,
                                              j: nat)
    requires l.perMin > 0 && SameEvents(es, xs) && i <= j <= |es| && forall k :: 0 <= k < j ==> IsExact(es[k])
    ensures RoundedGranted(l, es, key, i, j) == Granted(l, xs, key, i, j)
    decreases j
  {
    if i == j {
    } else {
      WithoutErrorsExact(l, es, xs, key, i, j - 1);
      GrantIsExact(l, es, xs, key, j - 1);
    }
  }

  // ---------- Any error shows ----------

  ghost predicate WithinNominalRate(l: Limits, es: seq<RoundedEvent>, key: string, i: nat, j: nat)
    requires l.perMin > 0 && i < j <= |es|
  {
    RoundedGranted(l, es, key, i, j) <= l.burst + l.perMin * (es[j - 1].now - es[i].now) / UNIT
  }

  /** A full burst without error, and one request, rounded up, a nanosecond before it is due. */
  function HastyRun(l: Limits, eps: real, delta: real): (es: seq<RoundedEvent>)
    requires l.perMin > 0 && l.burst >= 0
  {
    seq(l.burst, _ => Ask(0, "key", 0.0, 0.0)) + [Ask(UNIT / l.perMin - 1, "key", eps, delta)]
  }

  lemma HastyTime(l: Limits)
    requires l.perMin > 0 && UNIT % l.perMin == 0
    ensures var w := UNIT / l.perMin - 1;
            w >= 0 && l.perMin * w == UNIT - l.perMin && Inflow(l, 0, w) == (UNIT - l.perMin) as real
  {
    var w := UNIT / l.perMin - 1;
    WaitIsShort(l);
    LeastMultiple(UNIT, l.perMin);
    DivMono(l.perMin, UNIT, l.perMin);
    DivModUnique(l.perMin, l.perMin, 1, 0);
    MulAdd(l.perMin, UNIT / l.perMin, -1);
    RefillIsProduct(l.perMin, w);
  }

  lemma HastyServe(l: Limits, entries: RoundedEntries, eps: real, delta: real)
    requires IsLimits(l) && l.burst >= 1 && UNIT % l.perMin == 0 && eps >= 0.0 && delta >= 0.0 && eps + delta > 0.0
    requires "key" in entries && entries["key"].bucket == RoundedBucket(0.0, 0)
    ensures RoundedStep(l, entries, Ask(UNIT / l.perMin - 1, "key", eps, delta)).1
  {
    HastyTime(l);
    MulMono(UNIT, 1, l.burst);
  }

  lemma HastyRequestAllowed(l: Limits, es: seq<RoundedEvent>, eps: real, delta: real)
    requires IsLimits(l) && l.burst >= 1 && UNIT % l.perMin == 0 && eps >= 0.0 && delta >= 0.0 && eps + delta > 0.0
    requires es == HastyRun(l, eps, delta)
    ensures RoundedGranted(l, es, "key", 0, l.burst + 1) == l.burst + 1
  {
    var n := l.burst;
    var xs := seq(|es|, k requires 0 <= k < |es| => Forget(es[k]));
    assert SameEvents(es, xs) && forall k :: 0 <= k < n ==> IsExact(es[k]);
    HastyBurst(l, xs);
    WithoutErrorsExact(l, es, xs, "key", 0, n);
    ExactSoFar(l, es, xs, n);
    assert SameEntry(RoundedAt(l, es, n)["key"], At(l, xs, n)["key"]);
    HastyServe(l, RoundedAt(l, es, n), eps, delta);
    assert RoundedGrants(l, es, "key", n);
  }

  lemma HastyBurst(l: Limits, xs: seq<Event>)
    requires IsLimits(l) && l.burst >= 1 && |xs| > l.burst
    requires forall k :: 0 <= k < l.burst ==> xs[k] == Request(0, "key")
    ensures Granted(l, xs, "key", 0, l.burst) == l.burst
    ensures var entries := At(l, xs, l.burst); "key" in entries && entries["key"].bucket == Bucket(0, 0)
  {
    var n := l.burst;
    RefillIsProduct(UNIT, n);
    assert Requests(xs, 0, n, "key", 0);
    BurstAllowed(l, xs, "key", 0, n, 0);
    BurstGranted(l, xs, "key", 0, n, 0);
    MulMono(UNIT, 1, n);
  }

  /** However small the errors may be, some run within them exceeds the nominal bound. */
  lemma RoundingShows(l: Limits, eps: real, delta: real)
    requires IsLimits(l) && l.burst >= 1 && UNIT % l.perMin == 0 && eps >= 0.0 && delta >= 0.0 && eps + delta > 0.0
    ensures var es := HastyRun(l, eps, delta);
            InOrder(es) && Within(es, eps, delta) && !WithinNominalRate(l, es, "key", 0, l.burst + 1)
  {
    var es := HastyRun(l, eps, delta);
    HastyRequestAllowed(l, es, eps, delta);
    HastyTime(l);
  }

  ghost predicate NominalAlways(l: Limits, eps: real, delta: real)
    requires l.perMin > 0
  {
    forall es, key, i, j {:trigger WithinNominalRate(l, es, key, i, j)} ::
      InOrder(es) && Within(es, eps, delta) && 0 <= i < j <= |es| ==> WithinNominalRate(l, es, key, i, j)
  }

  /** A run of the exact limiter is one without errors. */
  lemma NominalIfRounded(l: Limits, eps: real, delta: real, xs: seq<Event>, key: string, i: nat, j: nat)
    requires IsLimits(l) && eps >= 0.0 && delta >= 0.0 && NominalAlways(l, eps, delta)
    requires Ordered(xs) && i < j <= |xs|
    ensures WithinNominal(l, xs, key, i, j)
  {
    var es := seq(|xs|, k requires 0 <= k < |xs| => Remember(xs[k]));
    assert SameEvents(es, xs);
    assert InOrder(es) && Within(es, eps, delta);
    WithoutErrorsExact(l, es, xs, key, i, j);
    assert WithinNominalRate(l, es, key, i, j);
  }

  lemma NominalIfExact(l: Limits, es: seq<RoundedEvent>, key: string, i: nat, j: nat)
    requires IsLimits(l) && InOrder(es) && Within(es, 0.0, 0.0) && i < j <= |es|
    requires UNIT % l.perMin == 0 && l.perMin * (l.ttl + 1) >= Capacity(l)
    ensures WithinNominalRate(l, es, key, i, j)
  {
    var xs := seq(|es|, k requires 0 <= k < |es| => Forget(es[k]));
    assert SameEvents(es, xs);
    forall k | 0 <= k < |es| ensures IsExact(es[k]) { assert Bounded(es[k], 0.0, 0.0); }
    WithoutErrorsExact(l, es, xs, key, i, j);
    NominalThroughputIff(l);
    assert WithinNominal(l, xs, key, i, j);
  }

  lemma {:induction false} NothingEverGranted(l: Limits, es: seq<RoundedEvent>, key: string, i: nat, j: nat)
    requires l.burst == 0 && i <= j <= |es|
    ensures RoundedGranted(l, es, key, i, j) == 0
    decreases j
  {
    if i == j {
    } else {
      NothingEverGranted(l, es, key, i, j - 1);
    }
  }

  /**
   The nominal bound holds in all runs within (eps, delta) exactly when no request is ever allowed,
   or there are no errors at all and the exact limiter keeps it.
   */
  lemma RoundedNominalIff(l: Limits, eps: real, delta: real)
    requires IsLimits(l) && eps >= 0.0 && delta >= 0.0
    ensures NominalAlways(l, eps, delta)
            <==> l.burst == 0
                 || (eps == 0.0 == delta && UNIT % l.perMin == 0 && l.perMin * (l.ttl + 1) >= Capacity(l))
  {
    if l.burst == 0 {
      forall es: seq<RoundedEvent>, key, i, j | InOrder(es) && 0 <= i < j <= |es|
          ensures WithinNominalRate(l, es, key, i, j) {
        NothingEverGranted(l, es, key, i, j);
        MulMono(l.perMin, 0, es[j - 1].now - es[i].now);
      }
    } else if UNIT % l.perMin != 0 || l.perMin * (l.ttl + 1) < Capacity(l) {
      if NominalAlways(l, eps, delta) {
        forall xs, key, i, j | Ordered(xs) && 0 <= i < j <= |xs| ensures WithinNominal(l, xs, key, i, j) {
          NominalIfRounded(l, eps, delta, xs, key, i, j);
        }
        NominalThroughputIff(l);
      }
    } else if eps + delta > 0.0 {
      RoundingShows(l, eps, delta);
    } else {
      forall es, key, i, j | InOrder(es) && Within(es, eps, delta) && 0 <= i < j <= |es|
          ensures WithinNominalRate(l, es, key, i, j) {
        NominalIfExact(l, es, key, i, j);
      }
    }
  }
}
