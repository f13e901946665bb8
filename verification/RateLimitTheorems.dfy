/** What the rate limiter, with exact buckets, guarantees over every run of requests and cleanup ticks. */
module RateLimitTheorems {
  import opened Prelude
  import opened Numbers
  import opened RateLimit

  // ---------- One bucket ----------

  lemma {:induction false} RefillIsProduct(p: int, d: nat)
    ensures Refill(p, d) == p * d
  {
    if d == 0 {
    } else {
      RefillIsProduct(p, d - 1);
      MulAdd(p, d - 1, 1);
    }
  }

  lemma RefillAdds(p: int, x: nat, y: nat)
    ensures Refill(p, x + y) == Refill(p, x) + Refill(p, y)
  {
    RefillIsProduct(p, x);
    RefillIsProduct(p, y);
    RefillIsProduct(p, x + y);
    MulAdd(p, x, y);
  }

  lemma RefillGrows(p: int, x: nat, y: nat)
    requires p >= 0 && x <= y
    ensures 0 <= Refill(p, x) <= Refill(p, y)
  {
    RefillIsProduct(p, x);
    RefillIsProduct(p, y);
    MulMono(p, x, y);
    MulMono(p, 0, x);
  }

  /** Refilling in two stretches is refilling in one. */
  lemma TokensLater(l: Limits, b: Bucket, s: Time, t: Time)
    requires l.perMin > 0 && b.last <= s <= t
    ensures var later := Tokens(l, b, s) + Refill(l.perMin, t - s);
            Tokens(l, b, t) == if later > Capacity(l) then Capacity(l) else later
    ensures Refill(l.perMin, t - s) >= 0
  {
    RefillAdds(l.perMin, s - b.last, t - s);
    RefillGrows(l.perMin, 0, t - s);
  }

  lemma {:induction false} QuotientIsExact(x: int, y: int)
    requires x >= 0 && y > 0
    ensures y * Quotient(x, y) <= x < y * Quotient(x, y) + y
    decreases x
  {
    if x < y {
    } else {
      QuotientIsExact(x - y, y);
      MulAdd(y, Quotient(x - y, y), 1);
    }
  }

  /** A token is granted exactly when less than a nanosecond's refill is missing. */
  lemma AllowsExactly(l: Limits, tokens: int)
    requires l.perMin > 0
    ensures Allows(l, tokens) <==> l.burst >= 1 && UNIT - tokens < l.perMin
  {}

  /**
   The least a bucket can hold. A level is a multiple of what divides both a token and a
   nanosecond's refill, and the rounding of waits grants a token up to a nanosecond early.
   */
  function Floor(l: Limits): (f: int)
    requires l.perMin > 0
    ensures -l.perMin < f <= 0
  {
    GcdDivides(UNIT, l.perMin);
    LeastMultiple(l.perMin, Gcd(UNIT, l.perMin));
    Gcd(UNIT, l.perMin) - l.perMin
  }

  ghost predicate BucketOk(l: Limits, b: Bucket, now: Time)
    requires l.perMin > 0
  {
    b.last <= now && Floor(l) <= b.tokens <= Capacity(l) && b.tokens % Gcd(UNIT, l.perMin) == 0
  }

  lemma CapacityMultiple(l: Limits)
    requires l.perMin > 0
    ensures Capacity(l) % Gcd(UNIT, l.perMin) == 0
  {
    GcdDivides(UNIT, l.perMin);
    MultipleTimes(UNIT, l.burst, Gcd(UNIT, l.perMin));
  }

  lemma TokensOk(l: Limits, b: Bucket, now: Time)
    requires IsLimits(l) && BucketOk(l, b, now)
    ensures BucketOk(l, Bucket(Tokens(l, b, now), now), now)
  {
    var g, d := Gcd(UNIT, l.perMin), now - b.last;
    RefillGrows(l.perMin, 0, d);
    RefillIsProduct(l.perMin, d);
    GcdDivides(UNIT, l.perMin);
    MultipleTimes(l.perMin, d, g);
    MultipleSum(b.tokens, l.perMin * d, g);
    CapacityMultiple(l);
  }

  lemma GrantOk(l: Limits, t: int, now: Time)
    requires IsLimits(l) && BucketOk(l, Bucket(t, now), now) && Allows(l, t)
    ensures BucketOk(l, Bucket(t - UNIT, now), now)
  {
    var g := Gcd(UNIT, l.perMin);
    AllowsExactly(l, t);
    GcdDivides(UNIT, l.perMin);
    MultipleTimes(UNIT, -1, g);
    MultipleSum(t, -UNIT, g);
    MultipleSum(t - UNIT, l.perMin, g);
    LeastMultiple(t - UNIT + l.perMin, g);
  }

  lemma ServeOk(l: Limits, b: Bucket, now: Time)
    requires IsLimits(l) && BucketOk(l, b, now)
    ensures BucketOk(l, Serve(l, b, now).0, now)
  {
    var t := Tokens(l, b, now);
    TokensOk(l, b, now);
    if Allows(l, t) { GrantOk(l, t, now); }
  }

  lemma NewBucketOk(l: Limits, now: Time)
    requires IsLimits(l)
    ensures BucketOk(l, NewBucket(l, now), now)
  {
    MulMono(UNIT, 0, l.burst);
    CapacityMultiple(l);
  }

  // ---------- Retry-After ----------

  /**
   A client that is refused and waits the advertised whole seconds is then allowed; unless the
   answer was rounded up to one second, any shorter whole number of seconds is not enough.
   */
  lemma RetryAfterIsExact(l: Limits, b: Bucket, now: Time, s: nat)
    requires IsLimits(l) && l.burst >= 1 && BucketOk(l, b, now)
    requires Serve(l, b, now).1.Denied?
    ensures var r := Serve(l, b, now);
            && Serve(l, r.0, now + r.1.retryAfter * SECOND).1 == Allowed
            && (s < r.1.retryAfter && r.1.retryAfter > 1 ==> Serve(l, r.0, now + s * SECOND).1 != Allowed)
  {
    var t := Tokens(l, b, now);
    var r := Serve(l, b, now);
    assert r.0 == Bucket(t, now);
    WaitIsExact(l, t, now, r.1.retryAfter * SECOND);
    WaitIsExact(l, t, now, s * SECOND);
    AllowsExactly(l, t);
    if s < r.1.retryAfter && r.1.retryAfter > 1 {
      assert s * SECOND <= (r.1.retryAfter - 1) * SECOND;
    }
  }

  /** After a refusal, waiting `d` nanoseconds suffices exactly when `d` is at least the wait. */
  lemma WaitIsExact(l: Limits, t: int, now: Time, d: nat)
    requires IsLimits(l) && l.burst >= 1 && t <= Capacity(l) && !Allows(l, t)
    ensures Allows(l, Tokens(l, Bucket(t, now), now + d)) <==> d >= Wait(l, t)
  {
    var p, need := l.perMin, UNIT - t;
    AllowsExactly(l, t);
    AllowsExactly(l, Tokens(l, Bucket(t, now), now + d));
    RefillIsProduct(p, d);
    QuotientIsExact(need, p);
    var q := Wait(l, t);
    if d >= q {
      MulMono(p, q, d);
    } else {
      MulMono(p, d + 1, q);
      MulAdd(p, d, 1);
    }
    MulMono(UNIT, 1, l.burst);
    assert Capacity(l) >= UNIT;
  }

  // ---------- Every run ----------

  ghost predicate EntriesOk(l: Limits, entries: Entries, now: Time)
    requires l.perMin > 0
  {
    forall k :: k in entries ==>
      BucketOk(l, entries[k].bucket, entries[k].lastSeen) && entries[k].lastSeen <= now
  }

  function Clock(es: seq<Event>, i: nat): (t: Time)
    requires i <= |es|
  {
    if |es| == 0 then 0 else if i == 0 then es[0].now else es[i - 1].now
  }

  lemma HandleOk(l: Limits, entries: Entries, key: string, now: Time, before: Time)
    requires IsLimits(l) && EntriesOk(l, entries, before) && before <= now
    ensures EntriesOk(l, Handle(l, entries, key, now).0, now)
  {
    NewBucketOk(l, now);
    var b := if key in entries then entries[key].bucket else NewBucket(l, now);
    ServeOk(l, b, now);
  }

  lemma {:induction false} RunOk(l: Limits, es: seq<Event>, i: nat)
    requires IsLimits(l) && Ordered(es) && i <= |es|
    ensures EntriesOk(l, At(l, es, i), Clock(es, i)) && EntriesOk(l, Forgetless(l, es, i), Clock(es, i))
  {
    if i == 0 {
    } else {
      RunOk(l, es, i - 1);
      var e := es[i - 1];
      if e.Request? {
        HandleOk(l, At(l, es, i - 1), e.key, e.now, Clock(es, i - 1));
        HandleOk(l, Forgetless(l, es, i - 1), e.key, e.now, Clock(es, i - 1));
      }
    }
  }

  // ---------- Eviction is invisible ----------

  /** Whatever a bucket holds, it is full again once it has been unused for longer than the time to live. */
  predicate Refills(l: Limits)
    requires l.perMin > 0
  {
    Gcd(UNIT, l.perMin) + l.perMin * l.ttl >= Capacity(l)
  }

  /** It is enough that an empty bucket refills within the time to live. */
  lemma RefillsWithinTtl(l: Limits)
    requires IsLimits(l) && l.perMin * l.ttl >= Capacity(l)
    ensures Refills(l)
  {}

  /** The limits of every route: burst equal to the rate per minute, kept for five minutes. */
  lemma RoutesRefill(perMin: int)
    requires perMin > 0
    ensures Refills(Limits(perMin, perMin, 5 * MINUTE))
  {
    var l := Limits(perMin, perMin, 5 * MINUTE);
    MulMono(perMin, UNIT, l.ttl);
    RefillsWithinTtl(l);
  }

  lemma StaleIsFull(l: Limits, e: Entry, now: Time)
    requires IsLimits(l) && Refills(l) && BucketOk(l, e.bucket, e.lastSeen) && now - e.lastSeen > l.ttl
    ensures Tokens(l, e.bucket, now) == Capacity(l)
  {
    RefillIsProduct(l.perMin, now - e.bucket.last);
    MulMono(l.perMin, l.ttl + 1, now - e.bucket.last);
    MulAdd(l.perMin, l.ttl, 1);
  }

  /** The bucket a request for `key` would meet. */
  function BucketOf(l: Limits, entries: Entries, key: string, now: Time): (b: Bucket) {
    if key in entries then entries[key].bucket else NewBucket(l, now)
  }

  /** Two buckets that answer alike from `now` on: the same, or both full. */
  predicate Alike(l: Limits, b: Bucket, c: Bucket, now: Time) {
    b == c || (b.last <= now && c.last <= now && Tokens(l, b, now) == Capacity(l) == Tokens(l, c, now))
  }

  lemma AlikeLater(l: Limits, b: Bucket, c: Bucket, s: Time, t: Time)
    requires IsLimits(l) && Alike(l, b, c, s) && s <= t
    ensures Alike(l, b, c, t)
  {
    if b != c {
      TokensLater(l, b, s, t);
      TokensLater(l, c, s, t);
    }
  }

  lemma AlikeServed(l: Limits, b: Bucket, c: Bucket, now: Time)
    requires IsLimits(l) && Alike(l, b, c, now)
    ensures Serve(l, b, now).1 == Serve(l, c, now).1
    ensures Alike(l, Serve(l, b, now).0, Serve(l, c, now).0, now)
  {}

  ghost predicate Agree(l: Limits, entries: Entries, all: Entries, now: Time) {
    && entries.Keys <= all.Keys
    && forall k :: k in all ==> Alike(l, BucketOf(l, entries, k, now), all[k].bucket, now)
  }

  lemma AgreeAt(l: Limits, entries: Entries, all: Entries, s: Time, t: Time, key: string)
    requires IsLimits(l) && Agree(l, entries, all, s) && s <= t && EntriesOk(l, all, s)
    ensures Alike(l, BucketOf(l, entries, key, t), BucketOf(l, all, key, t), t)
  {
    if key in all {
      var c := all[key].bucket;
      AlikeLater(l, BucketOf(l, entries, key, s), c, s, t);
      if key !in entries {
        var b := NewBucket(l, s);
        TokensLater(l, b, s, t);
        if b == c { assert Tokens(l, c, t) == Capacity(l); }
      }
    }
  }

  lemma EvictAgrees(l: Limits, entries: Entries, all: Entries, now: Time, key: string)
    requires IsLimits(l) && Refills(l) && EntriesOk(l, entries, now) && key in entries && key in all
    requires Alike(l, entries[key].bucket, all[key].bucket, now) && now - entries[key].lastSeen > l.ttl
    ensures Alike(l, NewBucket(l, now), all[key].bucket, now)
  {
    StaleIsFull(l, entries[key], now);
  }

  lemma {:induction false} RunsAgree(l: Limits, es: seq<Event>, i: nat)
    requires IsLimits(l) && Refills(l) && Ordered(es) && i <= |es|
    ensures Agree(l, At(l, es, i), Forgetless(l, es, i), Clock(es, i))
  {
    if i == 0 {
    } else {
      RunsAgree(l, es, i - 1);
      RunOk(l, es, i - 1);
      StepAgrees(l, At(l, es, i - 1), Forgetless(l, es, i - 1), es[i - 1], Clock(es, i - 1));
    }
  }

  lemma StepAgrees(l: Limits, entries: Entries, all: Entries, e: Event, before: Time)
    requires IsLimits(l) && Refills(l) && Agree(l, entries, all, before) && before <= e.now
    requires EntriesOk(l, entries, before) && EntriesOk(l, all, before)
    ensures Agree(l, Step(l, entries, e).0, if e.Tick? then all else Handle(l, all, e.key, e.now).0, e.now)
    ensures e.Request? ==> Step(l, entries, e).1 == Some(Handle(l, all, e.key, e.now).1)
  {
    var entries', all' := Step(l, entries, e).0, if e.Tick? then all else Handle(l, all, e.key, e.now).0;
    if e.Request? {
      AgreeAt(l, entries, all, before, e.now, e.key);
      AlikeServed(l, BucketOf(l, entries, e.key, e.now), BucketOf(l, all, e.key, e.now), e.now);
    }
    forall k | k in all'
      ensures Alike(l, BucketOf(l, entries', k, e.now), all'[k].bucket, e.now)
    {
      if e.Tick? || k != e.key {
        assert k in all;
        AgreeAt(l, entries, all, before, e.now, k);
        if e.Tick? && k in entries && k !in entries' { EvictAgrees(l, entries, all, e.now, k); }
      }
    }
  }

  /** With cleanup or without, every request gets the same answer, Retry-After included. */
  lemma EvictionIsInvisible(l: Limits, es: seq<Event>, i: nat)
    requires IsLimits(l) && Refills(l) && Ordered(es) && i < |es|
    ensures Answer(l, es, i) == ForgetlessAnswer(l, es, i)
  {
    RunsAgree(l, es, i);
    RunOk(l, es, i);
    StepAgrees(l, At(l, es, i), Forgetless(l, es, i), es[i], Clock(es, i));
  }

  // ---------- Retry-After in a run ----------

  lemma {:induction false} UntouchedMeanwhile(l: Limits, es: seq<Event>, key: string, i: nat, j: nat)
    requires IsLimits(l) && i <= j <= |es| && key in Forgetless(l, es, i)
    requires forall k :: i <= k < j ==> es[k].Request? ==> es[k].key != key
    ensures key in Forgetless(l, es, j) && Forgetless(l, es, j)[key] == Forgetless(l, es, i)[key]
  {
    if i == j {
    } else {
      UntouchedMeanwhile(l, es, key, i, j - 1);
    }
  }

  lemma {:induction false} UntouchedOrEvicted(l: Limits, es: seq<Event>, key: string, i: nat, j: nat)
    requires IsLimits(l) && i <= j <= |es| && key in At(l, es, i)
    requires forall k :: i <= k < j ==> es[k].Request? ==> es[k].key != key
    ensures key in At(l, es, j) ==> At(l, es, j)[key] == At(l, es, i)[key]
  {
    if i == j {
    } else {
      UntouchedOrEvicted(l, es, key, i, j - 1);
    }
  }

  /**
   Requests `i` and `j` are for one key, `s` seconds apart, with no other request for it between; the first
   is refused.
   */
  ghost predicate WaitsAfterRefusal(l: Limits, es: seq<Event>, i: nat, j: nat, s: nat)
    requires l.perMin > 0
  {
    && i < j < |es| && es[i].Request? && es[j].Request?
    && es[j].key == es[i].key && es[j].now == es[i].now + s * SECOND
    && (forall k :: i < k < j ==> es[k].Request? ==> es[k].key != es[i].key)
    && Answer(l, es, i).Some? && Answer(l, es, i).value.Denied?
  }

  /** A bucket that is gone is full when it is next asked for. */
  lemma EvictedIsAllowed(l: Limits, entries: Entries, key: string, now: Time)
    requires IsLimits(l) && l.burst >= 1 && key !in entries
    ensures Handle(l, entries, key, now).1 == Allowed
  {
    MulMono(UNIT, 1, l.burst);
    AllowsExactly(l, Capacity(l));
  }

  /**
   A refused client that keeps quiet for the advertised seconds is allowed then, whatever other
   keys and ticks do; and unless that is one second, or the bucket can be evicted before it has
   refilled, not after fewer whole seconds.
   */
  lemma RetryAfterHolds(l: Limits, es: seq<Event>, i: nat, j: nat, s: nat)
    requires IsLimits(l) && l.burst >= 1 && Ordered(es) && WaitsAfterRefusal(l, es, i, j, s)
    ensures s == Answer(l, es, i).value.retryAfter ==> Answer(l, es, j) == Some(Allowed)
    ensures Refills(l) && s < Answer(l, es, i).value.retryAfter && Answer(l, es, i).value.retryAfter > 1
            ==> Answer(l, es, j) != Some(Allowed)
  {
    WaitSuffices(l, es, i, j, s);
    if Refills(l) { NothingLessSuffices(l, es, i, j, s); }
  }

  lemma WaitSuffices(l: Limits, es: seq<Event>, i: nat, j: nat, s: nat)
    requires IsLimits(l) && l.burst >= 1 && Ordered(es) && WaitsAfterRefusal(l, es, i, j, s)
    ensures s == Answer(l, es, i).value.retryAfter ==> Answer(l, es, j) == Some(Allowed)
  {
    var key, now := es[i].key, es[i].now;
    RunOk(l, es, i);
    NewBucketOk(l, now);
    var b := BucketOf(l, At(l, es, i), key, now);
    RetryAfterIsExact(l, b, now, s);
    UntouchedOrEvicted(l, es, key, i + 1, j);
    if key in At(l, es, j) {
      assert At(l, es, j)[key].bucket == Serve(l, b, now).0;
    } else {
      EvictedIsAllowed(l, At(l, es, j), key, es[j].now);
    }
  }

  lemma NothingLessSuffices(l: Limits, es: seq<Event>, i: nat, j: nat, s: nat)
    requires IsLimits(l) && l.burst >= 1 && Refills(l) && Ordered(es) && WaitsAfterRefusal(l, es, i, j, s)
    ensures s < Answer(l, es, i).value.retryAfter && Answer(l, es, i).value.retryAfter > 1
            ==> Answer(l, es, j) != Some(Allowed)
  {
    var key, now, all := es[i].key, es[i].now, Forgetless(l, es, i);
    EvictionIsInvisible(l, es, i);
    EvictionIsInvisible(l, es, j);
    RunOk(l, es, i);
    NewBucketOk(l, now);
    var b := BucketOf(l, all, key, now);
    RetryAfterIsExact(l, b, now, s);
    UntouchedMeanwhile(l, es, key, i + 1, j);
    assert Forgetless(l, es, j)[key].bucket == Serve(l, b, now).0;
  }

  // ---------- Throughput ----------

  /** The tokens a request for `key` at time `now` would meet. */
  function Level(l: Limits, entries: Entries, key: string, now: Time): (t: int)
    ensures t <= Capacity(l)
  {
    Tokens(l, BucketOf(l, entries, key, now), now)
  }

  predicate Grants(l: Limits, es: seq<Event>, key: string, i: nat)
    requires l.perMin > 0 && i < |es|
  {
    es[i].Request? && es[i].key == key && Answer(l, es, i) == Some(Allowed)
  }

  /** How many requests for `key` among events `i` to `j` are allowed. */
  function Granted(l: Limits, es: seq<Event>, key: string, i: nat, j: nat): (n: nat)
    requires l.perMin > 0 && i <= j <= |es|
    decreases j - i
  {
    if i == j then 0 else Granted(l, es, key, i, j - 1) + if Grants(l, es, key, j - 1) then 1 else 0
  }

  lemma LevelRises(l: Limits, entries: Entries, key: string, s: Time, t: Time)
    requires IsLimits(l) && EntriesOk(l, entries, s) && s <= t
    ensures Level(l, entries, key, t) <= Level(l, entries, key, s) + Refill(l.perMin, t - s)
  {
    TokensLater(l, BucketOf(l, entries, key, s), s, t);
  }

  lemma LevelAfter(l: Limits, entries: Entries, e: Event, key: string)
    requires IsLimits(l) && Refills(l) && EntriesOk(l, entries, e.now)
    ensures var r := Step(l, entries, e);
            Level(l, r.0, key, e.now) == Level(l, entries, key, e.now)
              - if e.Request? && e.key == key && r.1 == Some(Allowed) then UNIT else 0
  {
    if e.Tick? && key in entries && e.now - entries[key].lastSeen > l.ttl {
      StaleIsFull(l, entries[key], e.now);
    }
    if e.Request? && e.key == key && l.burst >= 1 {
      var b := BucketOf(l, entries, key, e.now);
      var t := Tokens(l, b, e.now);
      assert Tokens(l, Bucket(t, e.now), e.now) == t;
    }
  }

  lemma LevelFloor(l: Limits, entries: Entries, key: string, now: Time)
    requires IsLimits(l) && EntriesOk(l, entries, now)
    ensures Level(l, entries, key, now) >= Floor(l)
  {
    NewBucketOk(l, now);
    TokensOk(l, BucketOf(l, entries, key, now), now);
  }

  lemma LevelStep(l: Limits, es: seq<Event>, key: string, j: nat)
    requires IsLimits(l) && Refills(l) && Ordered(es) && 0 < j < |es|
    ensures Level(l, At(l, es, j + 1), key, es[j].now)
            <= Level(l, At(l, es, j), key, es[j - 1].now) + Refill(l.perMin, es[j].now - es[j - 1].now)
               - if Grants(l, es, key, j) then UNIT else 0
  {
    RunOk(l, es, j);
    LevelAfter(l, At(l, es, j), es[j], key);
    LevelRises(l, At(l, es, j), key, es[j - 1].now, es[j].now);
  }

  lemma FirstLevel(l: Limits, es: seq<Event>, key: string, i: nat)
    requires IsLimits(l) && Refills(l) && Ordered(es) && i < |es|
    ensures Level(l, At(l, es, i + 1), key, es[i].now) <= Capacity(l) - if Grants(l, es, key, i) then UNIT else 0
  {
    RunOk(l, es, i);
    LevelAfter(l, At(l, es, i), es[i], key);
  }

  /** What a bucket holds after events `i` to `j` is at most a full one, plus the refill, less what was granted. */
  ghost predicate Pays(l: Limits, es: seq<Event>, key: string, i: nat, j: nat)
    requires l.perMin > 0 && Ordered(es) && i < j <= |es|
  {
    Level(l, At(l, es, j), key, es[j - 1].now)
    <= Capacity(l) + Refill(l.perMin, es[j - 1].now - es[i].now) - Refill(UNIT, Granted(l, es, key, i, j))
  }

  lemma PaysOneMore(l: Limits, es: seq<Event>, key: string, i: nat, j: nat)
    requires IsLimits(l) && Refills(l) && Ordered(es) && i < j < |es| && Pays(l, es, key, i, j)
    ensures Pays(l, es, key, i, j + 1)
  {
    LevelStep(l, es, key, j);
    RefillAdds(l.perMin, es[j - 1].now - es[i].now, es[j].now - es[j - 1].now);
    assert (es[j - 1].now - es[i].now) + (es[j].now - es[j - 1].now) == es[j].now - es[i].now;
  }

  lemma {:induction false} LevelPays(l: Limits, es: seq<Event>, key: string, i: nat, j: nat)
    requires IsLimits(l) && Refills(l) && Ordered(es) && i < j <= |es|
    ensures Pays(l, es, key, i, j)
  {
    if j == i + 1 {
      FirstLevel(l, es, key, i);
      assert Granted(l, es, key, i, i) == 0;
    } else {
      LevelPays(l, es, key, i, j - 1);
      PaysOneMore(l, es, key, i, j - 1);
    }
  }

  lemma QuotientBound(n: int, x: int)
    requires UNIT * n <= x
    ensures n <= x / UNIT
  {}

  /**
   Over any stretch of any run, cleanup ticks included, the requests of a key that are allowed
   number less than burst + perMin * (W + 1ns) / 60s, W being the time from the first to the last
   event. Buckets are exact here; `RateLimitRounding` has the bound when they are rounded.
   */
  lemma Throughput(l: Limits, es: seq<Event>, key: string, i: nat, j: nat)
    requires IsLimits(l) && Refills(l) && Ordered(es) && i < j <= |es|
    ensures UNIT * Granted(l, es, key, i, j) <= Capacity(l) + l.perMin * (es[j - 1].now - es[i].now + 1) - Gcd(UNIT,
            l.perMin)
    ensures UNIT % l.perMin == 0 ==>
              Granted(l, es, key, i, j) <= l.burst + l.perMin * (es[j - 1].now - es[i].now) / UNIT
  {
    GrantedBound(l, es, key, i, j);
    var w, n := es[j - 1].now - es[i].now, Granted(l, es, key, i, j);
    RefillIsProduct(l.perMin, w);
    MulAdd(l.perMin, w, 1);
    if UNIT % l.perMin == 0 {
      GcdOfMultiple(UNIT, l.perMin);
      QuotientBound(n - l.burst, l.perMin * w);
    }
  }

  lemma GrantedBound(l: Limits, es: seq<Event>, key: string, i: nat, j: nat)
    requires IsLimits(l) && Refills(l) && Ordered(es) && i < j <= |es|
    ensures UNIT * Granted(l, es, key, i, j) <= Capacity(l) + Refill(l.perMin, es[j - 1].now - es[i].now) - Floor(l)
  {
    LevelPays(l, es, key, i, j);
    RefillIsProduct(UNIT, Granted(l, es, key, i, j));
    RunOk(l, es, j);
    LevelFloor(l, At(l, es, j), key, es[j - 1].now);
  }

  // ---------- How long entries live ----------

  /** The time of the last tick among the first `j` events; the ticker starts at `start`. */
  function LastTick(start: Time, es: seq<Event>, j: nat): (t: Time)
    requires j <= |es|
  {
    if j == 0 then start else if es[j - 1].Tick? then es[j - 1].now else LastTick(start, es, j - 1)
  }

  lemma {:induction false} SeenSinceTick(l: Limits, start: Time, es: seq<Event>, j: nat, key: string)
    requires IsLimits(l) && Ordered(es) && j <= |es| && (|es| > 0 ==> start <= es[0].now) && key in At(l, es, j)
    ensures At(l, es, j)[key].lastSeen >= LastTick(start, es, j) - l.ttl
  {
    if j == 0 {
    } else if es[j - 1].Request? && es[j - 1].key == key {
      TicksAreOver(start, es, j);
    } else if es[j - 1].Request? {
      SeenSinceTick(l, start, es, j - 1, key);
    }
  }

  lemma {:induction false} TicksAreOver(start: Time, es: seq<Event>, j: nat)
    requires Ordered(es) && 0 < j <= |es| && start <= es[0].now
    ensures LastTick(start, es, j) <= es[j - 1].now
  {
    if j == 1 {
    } else if es[j - 1].Request? {
      TicksAreOver(start, es, j - 1);
    }
  }

  /**
   As long as no tick is overdue, before the first one too, no entry is kept for more than twice
   the time to live after its last use.
   */
  lemma EntriesDoNotLinger(l: Limits, start: Time, es: seq<Event>, j: nat, key: string, now: Time)
    requires IsLimits(l) && Ordered(es) && j <= |es| && (|es| > 0 ==> start <= es[0].now) && key in At(l, es, j)
    requires now <= LastTick(start, es, j) + l.ttl
    ensures now - At(l, es, j)[key].lastSeen <= 2 * l.ttl
  {
    SeenSinceTick(l, start, es, j, key);
  }
}
