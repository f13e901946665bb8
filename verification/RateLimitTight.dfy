/**
 The conditions of the rate limiter's theorems are exact: runs that show eviction, or exceed
 the nominal throughput, whenever a condition fails.
 */
module RateLimitTight {
  import opened Prelude
  import opened Numbers
  import opened RateLimit
  import opened RateLimitTheorems

  /** `n` requests for one key at one time. */
  function Burst(n: nat, now: Time, key: string): (es: seq<Event>) {
    seq(n, _ => Request(now, key))
  }

  lemma HandleLevel(l: Limits, entries: Entries, key: string, now: Time)
    requires IsLimits(l)
    ensures l.burst >= 1 && Level(l, entries, key, now) >= UNIT ==> Handle(l, entries, key, now).1 == Allowed
    ensures var r := Handle(l, entries, key, now);
            && key in r.0 && r.0[key].lastSeen == now
            && (r.1 == Allowed ==>
                  Level(l, r.0, key, now) == Level(l, entries, key, now) - UNIT && r.0[key].bucket.last == now)
  {
    AllowsExactly(l, Level(l, entries, key, now));
  }

  lemma NextAllowed(l: Limits, es: seq<Event>, key: string, k: nat, now: Time)
    requires IsLimits(l) && l.burst >= 1 && k < |es| && es[k] == Request(now, key)
    requires Level(l, At(l, es, k), key, now) >= UNIT
    ensures Answer(l, es, k) == Some(Allowed) && Grants(l, es, key, k)
    ensures Level(l, At(l, es, k + 1), key, now) == Level(l, At(l, es, k), key, now) - UNIT
    ensures key in At(l, es, k + 1) && At(l, es, k + 1)[key].lastSeen == now == At(l, es, k + 1)[key].bucket.last
  {
    HandleLevel(l, At(l, es, k), key, now);
  }

  lemma NextForgetless(l: Limits, es: seq<Event>, key: string, k: nat, now: Time)
    requires IsLimits(l) && k < |es| && es[k] == Request(now, key) && ForgetlessAnswer(l, es, k) == Some(Allowed)
    ensures Level(l, Forgetless(l, es, k + 1), key, now) == Level(l, Forgetless(l, es, k), key, now) - UNIT
    ensures key in Forgetless(l, es, k + 1) && Forgetless(l, es, k + 1)[key].bucket.last == now
  {
    HandleLevel(l, Forgetless(l, es, k), key, now);
  }

  /** Events `i` to `j` are all requests for one key at one time. */
  ghost predicate Requests(es: seq<Event>, i: nat, j: nat, key: string, now: Time) {
    j <= |es| && forall k {:trigger es[k]} :: i <= k < j ==> es[k] == Request(now, key)
  }

  ghost predicate AllAllowed(l: Limits, es: seq<Event>, i: nat, j: nat)
    requires l.perMin > 0 && j <= |es|
  {
    forall k {:trigger Answer(l, es, k)} :: i <= k < j ==> Answer(l, es, k) == Some(Allowed)
  }

  ghost predicate ForgetlessAllowed(l: Limits, es: seq<Event>, i: nat, j: nat)
    requires l.perMin > 0 && j <= |es|
  {
    forall k {:trigger ForgetlessAnswer(l, es, k)} :: i <= k < j ==> ForgetlessAnswer(l, es, k) == Some(Allowed)
  }

  /** The `n` requests from event `i` on are all allowed, and cost `n` tokens. */
  ghost predicate Drained(l: Limits, es: seq<Event>, key: string, i: nat, n: nat, now: Time)
    requires l.perMin > 0 && i + n <= |es|
  {
    && AllAllowed(l, es, i, i + n)
    && Level(l, At(l, es, i + n), key, now) == Level(l, At(l, es, i), key, now) - Refill(UNIT, n)
    && (n > 0 ==> key in At(l, es, i + n) && At(l, es, i + n)[key].lastSeen == now == At(l, es, i + n)[key].bucket.last)
  }

  lemma DrainOneMore(l: Limits, es: seq<Event>, key: string, i: nat, n: nat, now: Time)
    requires IsLimits(l) && l.burst >= 1 && i + n < |es| && es[i + n] == Request(now, key)
    requires Level(l, At(l, es, i), key, now) >= Refill(UNIT, n + 1) && Drained(l, es, key, i, n, now)
    ensures Drained(l, es, key, i, n + 1, now)
  {
    NextAllowed(l, es, key, i + n, now);
  }

  /** As many requests as there are whole tokens are all allowed. */
  lemma {:induction false} BurstAllowed(l: Limits, es: seq<Event>, key: string, i: nat, n: nat, now: Time)
    requires IsLimits(l) && l.burst >= 1 && Requests(es, i, i + n, key, now)
    requires Level(l, At(l, es, i), key, now) >= Refill(UNIT, n)
    ensures Drained(l, es, key, i, n, now)
  {
    if n == 0 {
    } else {
      BurstAllowed(l, es, key, i, n - 1, now);
      DrainOneMore(l, es, key, i, n - 1, now);
    }
  }

  lemma {:induction false} BurstGranted(l: Limits, es: seq<Event>, key: string, i: nat, j: nat, now: Time)
    requires IsLimits(l) && i <= j && Requests(es, i, j, key, now) && AllAllowed(l, es, i, j)
    ensures Granted(l, es, key, i, j) == j - i
    decreases j
  {
    if i == j {
    } else {
      BurstGranted(l, es, key, i, j - 1, now);
      assert Answer(l, es, j - 1) == Some(Allowed);
    }
  }

  /** In the limiter that never forgets, `n` allowed requests cost `n` tokens. */
  lemma {:induction false} ForgetlessBurst(l: Limits, es: seq<Event>, key: string, i: nat, n: nat, now: Time)
    requires IsLimits(l) && l.burst >= 1 && Requests(es, i, i + n, key, now) && ForgetlessAllowed(l, es, i, i + n)
    ensures Level(l, Forgetless(l, es, i + n), key, now) == Level(l, Forgetless(l, es, i), key, now) - Refill(UNIT, n)
    ensures n > 0 ==> key in Forgetless(l, es, i + n) && Forgetless(l, es, i + n)[key].bucket.last == now
  {
    if n == 0 {
    } else {
      ForgetlessBurst(l, es, key, i, n - 1, now);
      assert ForgetlessAnswer(l, es, i + n - 1) == Some(Allowed);
      NextForgetless(l, es, key, i + n - 1, now);
    }
  }

  /** Use up a key, let it be evicted, use it up again. */
  function TwoBursts(l: Limits): (es: seq<Event>)
    requires l.burst >= 0
  {
    Burst(l.burst, 0, "key") + [Tick(l.ttl + 1)] + Burst(l.burst, l.ttl + 1, "key")
  }

  ghost predicate IsTwoBursts(l: Limits, es: seq<Event>) {
    var n := l.burst;
    && n >= 0 && |es| == n + 1 + n
    && Requests(es, 0, n, "key", 0) && es[n] == Tick(l.ttl + 1) && Requests(es, n + 1, n + 1 + n, "key", l.ttl + 1)
  }

  lemma EvictedBurstAllowed(l: Limits, es: seq<Event>)
    requires IsLimits(l) && l.burst >= 1 && IsTwoBursts(l, es)
    ensures AllAllowed(l, es, 0, l.burst) && AllAllowed(l, es, l.burst + 1, |es|)
  {
    var n := l.burst;
    RefillIsProduct(UNIT, n);
    BurstAllowed(l, es, "key", 0, n, 0);
    assert At(l, es, n + 1) == Evict(l, At(l, es, n), l.ttl + 1);
    assert "key" !in At(l, es, n + 1);
    BurstAllowed(l, es, "key", n + 1, n, l.ttl + 1);
  }

  // ---------- Eviction ----------

  /** When the `r`-th token after a full burst is granted: as soon as less than a nanosecond's refill is missing. */
  function Due(l: Limits, r: nat): (d: nat)
    requires l.perMin > 0
  {
    RefillIsProduct(UNIT, r);
    DivMono(0, Refill(UNIT, r), l.perMin);
    Refill(UNIT, r) / l.perMin
  }

  lemma DueInOrder(l: Limits, r: nat, s: nat)
    requires l.perMin > 0 && r <= s
    ensures Due(l, r) <= Due(l, s)
  {
    RefillGrows(UNIT, r, s);
    DivMono(Refill(UNIT, r), Refill(UNIT, s), l.perMin);
  }

  /** `c` more than what the refill until the `r`-th token is due leaves of `r` tokens. */
  function Left(l: Limits, r: nat, c: int): (t: int)
    requires l.perMin > 0
  {
    c + Refill(l.perMin, Due(l, r)) - Refill(UNIT, r)
  }

  lemma LeftIsRemainder(l: Limits, r: nat, c: int)
    requires l.perMin > 0
    ensures Left(l, r, c) == c - Refill(UNIT, r) % l.perMin
  {
    RefillIsProduct(l.perMin, Due(l, r));
  }

  /** The bucket of "key" after the `r`-th token due from `base` on, started with `c` at that time. */
  ghost predicate Owes(l: Limits, entries: Entries, r: nat, base: Time, c: int)
    requires l.perMin > 0
  {
    "key" in entries && entries["key"] == Entry(Bucket(Left(l, r, c), base + Due(l, r)), base + Due(l, r))
  }

  /**
   One more request, when it is due: allowed if the bucket started empty, and else, if allowed, as far
   behind as before.
   */
  lemma ServeWhenDue(l: Limits, entries: Entries, r: nat, base: Time, c: int)
    requires IsLimits(l) && l.burst >= 1 && c <= 0 && Owes(l, entries, r, base, c)
    ensures var h := Handle(l, entries, "key", base + Due(l, r + 1));
            (c == 0 ==> h.1 == Allowed) && (h.1 == Allowed ==> Owes(l, h.0, r + 1, base, c))
  {
    var b, now := entries["key"].bucket, base + Due(l, r + 1);
    DueInOrder(l, r, r + 1);
    RefillAdds(l.perMin, Due(l, r), Due(l, r + 1) - Due(l, r));
    assert Refill(UNIT, r + 1) == Refill(UNIT, r) + UNIT;
    var t := b.tokens + Refill(l.perMin, now - b.last);
    assert t == Left(l, r + 1, c) + UNIT;
    LeftIsRemainder(l, r + 1, c);
    MulMono(UNIT, 1, l.burst);
    assert Tokens(l, b, now) == t;
    AllowsExactly(l, t);
  }

  /** A burst at `base`, then `y` requests, each when it is due. */
  function Chase(l: Limits, y: nat, base: Time): (es: seq<Event>)
    requires l.perMin > 0 && l.burst >= 0
  {
    Burst(l.burst, base, "key") + seq(y, r requires 0 <= r => Request(base + Due(l, r + 1), "key"))
  }

  ghost predicate IsDue(l: Limits, es: seq<Event>, i: nat, r: nat, base: Time)
    requires l.perMin > 0 && i + r < |es|
  {
    es[i + r] == Request(base + Due(l, r + 1), "key")
  }

  /** Events `i` to `i + y` are the requests that are due. */
  ghost predicate DueRequests(l: Limits, es: seq<Event>, i: nat, y: nat, base: Time)
    requires l.perMin > 0
  {
    i + y <= |es| && forall r {:trigger IsDue(l, es, i, r, base)} :: 0 <= r < y ==> IsDue(l, es, i, r, base)
  }

  ghost predicate IsChase(l: Limits, es: seq<Event>, i: nat, y: nat, base: Time)
    requires IsLimits(l)
  {
    Requests(es, i, i + l.burst, "key", base) && DueRequests(l, es, i + l.burst, y, base)
  }

  lemma {:induction false} DueAllowed(l: Limits, es: seq<Event>, i: nat, y: nat, base: Time)
    requires IsLimits(l) && l.burst >= 1 && DueRequests(l, es, i, y, base) && Owes(l, At(l, es, i), 0, base, 0)
    ensures AllAllowed(l, es, i, i + y) && Owes(l, At(l, es, i + y), y, base, 0)
  {
    if y == 0 {
    } else {
      DueAllowed(l, es, i, y - 1, base);
      assert IsDue(l, es, i, y - 1, base);
      ServeWhenDue(l, At(l, es, i + y - 1), y - 1, base, 0);
    }
  }

  lemma {:induction false} DueForgetless(l: Limits, es: seq<Event>, i: nat, y: nat, base: Time, c: int)
    requires IsLimits(l) && l.burst >= 1 && c <= 0 && DueRequests(l, es, i, y, base)
    requires Owes(l, Forgetless(l, es, i), 0, base, c) && ForgetlessAllowed(l, es, i, i + y)
    ensures Owes(l, Forgetless(l, es, i + y), y, base, c)
  {
    if y == 0 {
    } else {
      DueForgetless(l, es, i, y - 1, base, c);
      assert IsDue(l, es, i, y - 1, base);
      assert ForgetlessAnswer(l, es, i + y - 1) == Some(Allowed);
      ServeWhenDue(l, Forgetless(l, es, i + y - 1), y - 1, base, c);
    }
  }

  lemma EmptiedOwes(l: Limits, entries: Entries, base: Time, c: int)
    requires IsLimits(l) && l.burst >= 1 && c <= 0 && "key" in entries
    requires entries["key"].lastSeen == base == entries["key"].bucket.last && Level(l, entries, "key", base) == c
    ensures Owes(l, entries, 0, base, c)
  {
    MulMono(UNIT, 1, l.burst);
    assert Due(l, 0) == 0 by { DivModUnique(0, l.perMin, 0, 0); }
  }

  /** From a full bucket every request of a chase is allowed. */
  lemma ChaseAllowed(l: Limits, es: seq<Event>, i: nat, y: nat, base: Time)
    requires IsLimits(l) && l.burst >= 1 && IsChase(l, es, i, y, base)
             && Level(l, At(l, es, i), "key", base) == Capacity(l)
    ensures AllAllowed(l, es, i, i + l.burst + y) && Owes(l, At(l, es, i + l.burst + y), y, base, 0)
  {
    RefillIsProduct(UNIT, l.burst);
    BurstAllowed(l, es, "key", i, l.burst, base);
    EmptiedOwes(l, At(l, es, i + l.burst), base, 0);
    DueAllowed(l, es, i + l.burst, y, base);
  }

  /** If the limiter that never forgets allows it too, it stays behind by what it lacked at the start. */
  lemma ChaseForgetless(l: Limits, es: seq<Event>, i: nat, y: nat, base: Time)
    requires IsLimits(l) && l.burst >= 1 && IsChase(l, es, i, y, base) && ForgetlessAllowed(l, es, i, i + l.burst + y)
    ensures Owes(l, Forgetless(l, es, i + l.burst + y), y, base,
                 Level(l, Forgetless(l, es, i), "key", base) - Capacity(l))
  {
    RefillIsProduct(UNIT, l.burst);
    ForgetlessBurst(l, es, "key", i, l.burst, base);
    var c := Level(l, Forgetless(l, es, i), "key", base) - Capacity(l);
    EmptiedOwes(l, Forgetless(l, es, i + l.burst), base, c);
    DueForgetless(l, es, i + l.burst, y, base, c);
  }

  /** Chase a key to the least its bucket can hold, let it be evicted, and chase it again. */
  function TwoChases(l: Limits, y: nat): (es: seq<Event>)
    requires IsLimits(l)
  {
    var again := Due(l, y) + l.ttl + 1;
    Chase(l, y, 0) + [Tick(again)] + Chase(l, y, again)
  }

  ghost predicate IsTwoChases(l: Limits, es: seq<Event>, y: nat)
    requires IsLimits(l)
  {
    var m, again := l.burst + y, Due(l, y) + l.ttl + 1;
    && |es| == m + 1 + m && Ordered(es)
    && IsChase(l, es, 0, y, 0) && es[m] == Tick(again) && IsChase(l, es, m + 1, y, again)
  }

  lemma ChaseInOrder(l: Limits, y: nat, base: Time, i: nat, j: nat)
    requires IsLimits(l) && i <= j < l.burst + y
    ensures base <= Chase(l, y, base)[i].now <= Chase(l, y, base)[j].now <= base + Due(l, y)
  {
    if l.burst <= i { DueInOrder(l, i - l.burst + 1, j - l.burst + 1); }
    if l.burst <= j { DueInOrder(l, j - l.burst + 1, y); }
  }

  lemma ChaseIsChase(l: Limits, es: seq<Event>, i: nat, y: nat, base: Time)
    requires IsLimits(l) && i + l.burst + y <= |es| && es[i..i + l.burst + y] == Chase(l, y, base)
    ensures IsChase(l, es, i, y, base)
  {
    var c, from := Chase(l, y, base), i + l.burst;
    assert forall k {:trigger es[k]} :: i <= k < i + l.burst ==> es[k] == c[k - i];
    forall r | 0 <= r < y ensures IsDue(l, es, from, r, base) {
      assert es[from + r] == c[l.burst + r];
    }
  }

  lemma TwoChasesInOrder(l: Limits, y: nat, i: nat, j: nat)
    requires IsLimits(l) && i <= j < |TwoChases(l, y)|
    ensures TwoChases(l, y)[i].now <= TwoChases(l, y)[j].now
  {
    var m, again := l.burst + y, Due(l, y) + l.ttl + 1;
    if i < m { ChaseInOrder(l, y, 0, i, if j < m then j else i); }
    if j > m { ChaseInOrder(l, y, again, if i > m then i - m - 1 else j - m - 1, j - m - 1); }
  }

  lemma TwoChasesAre(l: Limits, y: nat)
    requires IsLimits(l)
    ensures IsTwoChases(l, TwoChases(l, y), y)
  {
    var es, m, again := TwoChases(l, y), l.burst + y, Due(l, y) + l.ttl + 1;
    forall i, j | 0 <= i <= j < |es| ensures es[i].now <= es[j].now {
      TwoChasesInOrder(l, y, i, j);
    }
    assert es[0..m] == Chase(l, y, 0) && es[m + 1..m + 1 + m] == Chase(l, y, again);
    ChaseIsChase(l, es, 0, y, 0);
    ChaseIsChase(l, es, m + 1, y, again);
  }

  lemma ChasedAgainAllowed(l: Limits, es: seq<Event>, y: nat)
    requires IsLimits(l) && l.burst >= 1 && IsTwoChases(l, es, y)
    ensures AllAllowed(l, es, 0, l.burst + y) && AllAllowed(l, es, l.burst + y + 1, |es|)
  {
    var m, again := l.burst + y, Due(l, y) + l.ttl + 1;
    ChaseAllowed(l, es, 0, y, 0);
    assert At(l, es, m + 1) == Evict(l, At(l, es, m), again);
    assert "key" !in At(l, es, m + 1);
    ChaseAllowed(l, es, m + 1, y, again);
  }

  /** Idle for the time to live and a nanosecond, an emptied bucket that cannot refill is not full. */
  lemma NotYetFull(l: Limits, entries: Entries, y: nat)
    requires IsLimits(l) && !Refills(l) && Refill(UNIT, y) % l.perMin == l.perMin - Gcd(UNIT, l.perMin)
    requires Owes(l, entries, y, 0, 0)
    ensures Level(l, entries, "key", Due(l, y) + l.ttl + 1) < Capacity(l)
  {
    LeftIsRemainder(l, y, 0);
    RefillIsProduct(l.perMin, l.ttl + 1);
    MulAdd(l.perMin, l.ttl, 1);
  }

  lemma ChaseTellsApart(l: Limits, es: seq<Event>, y: nat)
    requires IsLimits(l) && l.burst >= 1 && !Refills(l) && IsTwoChases(l, es, y)
    requires Refill(UNIT, y) % l.perMin == l.perMin - Gcd(UNIT, l.perMin)
    ensures !(ForgetlessAllowed(l, es, 0, l.burst + y) && ForgetlessAllowed(l, es, l.burst + y + 1, |es|))
  {
    var m, again := l.burst + y, Due(l, y) + l.ttl + 1;
    if ForgetlessAllowed(l, es, 0, m) && ForgetlessAllowed(l, es, m + 1, |es|) {
      ChaseForgetless(l, es, 0, y, 0);
      assert Level(l, Forgetless(l, es, 0), "key", 0) == Capacity(l);
      NotYetFull(l, Forgetless(l, es, m), y);
      assert Forgetless(l, es, m + 1) == Forgetless(l, es, m);
      ChaseForgetless(l, es, m + 1, y, again);
      var c := Level(l, Forgetless(l, es, m + 1), "key", again) - Capacity(l);
      LeftIsRemainder(l, y, c);
      RunOk(l, es, |es|);
      assert false;
    }
  }

  lemma ChasesDiffer(l: Limits, es: seq<Event>, y: nat)
    requires IsLimits(l) && l.burst >= 1 && !Refills(l) && IsTwoChases(l, es, y)
    requires Refill(UNIT, y) % l.perMin == l.perMin - Gcd(UNIT, l.perMin)
    ensures exists i :: 0 <= i < |es| && Answer(l, es, i) != ForgetlessAnswer(l, es, i)
  {
    var m := l.burst + y;
    ChasedAgainAllowed(l, es, y);
    ChaseTellsApart(l, es, y);
    if ForgetlessAllowed(l, es, 0, m) {
      var k :| m + 1 <= k < |es| && ForgetlessAnswer(l, es, k) != Some(Allowed);
      assert Answer(l, es, k) != ForgetlessAnswer(l, es, k);
    } else {
      var k :| 0 <= k < m && ForgetlessAnswer(l, es, k) != Some(Allowed);
      assert Answer(l, es, k) != ForgetlessAnswer(l, es, k);
    }
  }

  /** If a bucket can be evicted before it is full, some run gets another answer than without eviction. */
  lemma EvictionShows(l: Limits)
    requires IsLimits(l) && !Refills(l)
    ensures exists es, i :: Ordered(es) && 0 <= i < |es| && Answer(l, es, i) != ForgetlessAnswer(l, es, i)
  {
    var y := LargestRemainder(UNIT, l.perMin);
    RefillIsProduct(UNIT, y);
    MulMono(l.perMin, 0, l.ttl);
    TwoChasesAre(l, y);
    ChasesDiffer(l, TwoChases(l, y), y);
  }

  /**
   For every rate, burst and time to live, eviction is invisible in all runs exactly when the
   least a bucket can hold refills before it can be evicted.
   */
  lemma EvictionInvisibleIff(l: Limits)
    requires IsLimits(l)
    ensures (forall es, i :: Ordered(es) && 0 <= i < |es| ==> Answer(l, es, i) == ForgetlessAnswer(l, es, i))
            <==> Gcd(UNIT, l.perMin) + l.perMin * l.ttl >= Capacity(l)
  {
    if Refills(l) {
      forall es, i | Ordered(es) && 0 <= i < |es| ensures Answer(l, es, i) == ForgetlessAnswer(l, es, i) {
        EvictionIsInvisible(l, es, i);
      }
    } else {
      EvictionShows(l);
    }
  }

  // ---------- Throughput ----------

  /**
   The bound one would expect: burst + perMin * W / 60s, rounded down. As all of this module it is about
   exact buckets.
   */
  ghost predicate WithinNominal(l: Limits, es: seq<Event>, key: string, i: nat, j: nat)
    requires l.perMin > 0 && i < j <= |es|
  {
    Granted(l, es, key, i, j) <= l.burst + l.perMin * (es[j - 1].now - es[i].now) / UNIT
  }

  /** A full burst at time zero, and one request as soon as the rounded-down wait is over. */
  function EarlyRun(l: Limits): (es: seq<Event>)
    requires l.perMin > 0 && l.burst >= 0
  {
    Burst(l.burst, 0, "key") + [Request(UNIT / l.perMin, "key")]
  }

  lemma EarlyRequestAllowed(l: Limits, es: seq<Event>)
    requires IsLimits(l) && l.burst >= 1 && es == EarlyRun(l)
    ensures Answer(l, es, l.burst) == Some(Allowed) && AllAllowed(l, es, 0, l.burst)
  {
    var n, w := l.burst, UNIT / l.perMin;
    RefillIsProduct(UNIT, n);
    assert Requests(es, 0, n, "key", 0);
    BurstAllowed(l, es, "key", 0, n, 0);
    RunOk0(l, es, n);
    var b := At(l, es, n)["key"].bucket;
    WaitIsShort(l);
    RefillIsProduct(l.perMin, w);
    TokensLater(l, b, 0, w);
    MulMono(UNIT, 1, n);
    AllowsExactly(l, Tokens(l, b, w));
    assert es[n] == Request(w, "key");
  }

  lemma WaitIsShort(l: Limits)
    requires l.perMin > 0
    ensures UNIT / l.perMin >= 0 && l.perMin * (UNIT / l.perMin) == UNIT - UNIT % l.perMin
  {
    var w := UNIT / l.perMin;
    assert UNIT == l.perMin * w + UNIT % l.perMin;
    if w < 0 { MulMono(l.perMin, w, -1); }
  }

  lemma EarlyGrant(l: Limits)
    requires IsLimits(l) && l.burst >= 1 && UNIT % l.perMin != 0
    ensures exists es, j {:trigger WithinNominal(l, es, "key", 0, j)} ::
              Ordered(es) && 0 < j <= |es| && !WithinNominal(l, es, "key", 0, j)
  {
    var n, w, es := l.burst, UNIT / l.perMin, EarlyRun(l);
    EarlyRequestAllowed(l, es);
    assert Requests(es, 0, n, "key", 0);
    BurstGranted(l, es, "key", 0, n, 0);
    assert Granted(l, es, "key", 0, n + 1) == n + 1;
    WaitIsShort(l);
    MulMono(l.perMin, 0, w);
    assert !WithinNominal(l, es, "key", 0, n + 1);
  }

  /** In a run whose events are all at time zero the buckets date from then. */
  lemma {:induction false} RunOk0(l: Limits, es: seq<Event>, i: nat)
    requires IsLimits(l) && Requests(es, 0, i, "key", 0)
    ensures forall k :: k in At(l, es, i) ==> At(l, es, i)[k].bucket.last == 0
  {
    if i == 0 {
    } else {
      RunOk0(l, es, i - 1);
      assert es[i - 1] == Request(0, "key");
    }
  }

  lemma {:induction false} GrantedSplits(l: Limits, es: seq<Event>, key: string, i: nat, j: nat, k: nat)
    requires IsLimits(l) && i <= j <= k <= |es|
    ensures Granted(l, es, key, i, k) == Granted(l, es, key, i, j) + Granted(l, es, key, j, k)
    decreases k
  {
    if j == k {
    } else {
      GrantedSplits(l, es, key, i, j, k - 1);
    }
  }

  lemma TwoBurstsGranted(l: Limits, es: seq<Event>)
    requires IsLimits(l) && l.burst >= 1 && IsTwoBursts(l, es)
    ensures Granted(l, es, "key", 0, |es|) == l.burst + l.burst
  {
    var n := l.burst;
    EvictedBurstAllowed(l, es);
    BurstGranted(l, es, "key", 0, n, 0);
    BurstGranted(l, es, "key", n + 1, |es|, l.ttl + 1);
    GrantedSplits(l, es, "key", 0, n + 1, |es|);
    assert Granted(l, es, "key", 0, n + 1) == n;
  }

  /** If a bucket can be evicted before it has refilled, the two bursts together exceed the nominal bound. */
  lemma EvictedGrant(l: Limits, es: seq<Event>)
    requires IsLimits(l) && l.burst >= 1 && l.perMin * (l.ttl + 1) < Capacity(l) && IsTwoBursts(l, es)
    ensures !WithinNominal(l, es, "key", 0, |es|)
  {
    TwoBurstsGranted(l, es);
    assert es[0] == Request(0, "key") && es[|es| - 1] == Request(l.ttl + 1, "key");
  }

  lemma {:induction false} NothingGranted(l: Limits, es: seq<Event>, key: string, i: nat, j: nat)
    requires IsLimits(l) && l.burst == 0 && i <= j <= |es|
    ensures Granted(l, es, key, i, j) == 0
    decreases j
  {
    if i == j {
    } else {
      NothingGranted(l, es, key, i, j - 1);
    }
  }

  /**
   With exact buckets the nominal bound holds in all runs exactly when no request is ever allowed, or the rounding
   of waits to nanoseconds cannot show and no bucket is evicted before it has refilled.
   */
  lemma NominalThroughputIff(l: Limits)
    requires IsLimits(l)
    ensures (forall es, key, i, j {:trigger WithinNominal(l, es, key, i, j)} ::
               Ordered(es) && 0 <= i < j <= |es| ==> WithinNominal(l, es, key, i, j))
            <==> l.burst == 0 || (UNIT % l.perMin == 0 && l.perMin * (l.ttl + 1) >= Capacity(l))
  {
    if l.burst == 0 {
      forall es: seq<Event>, key, i, j | Ordered(es) && 0 <= i < j <= |es| ensures WithinNominal(l, es, key, i, j) {
        NothingGranted(l, es, key, i, j);
        MulMono(l.perMin, 0, es[j - 1].now - es[i].now);
      }
    } else if UNIT % l.perMin != 0 {
      EarlyGrant(l);
    } else if l.perMin * (l.ttl + 1) >= Capacity(l) {
      GcdOfMultiple(UNIT, l.perMin);
      MulAdd(l.perMin, l.ttl, 1);
      forall es, key, i, j | Ordered(es) && 0 <= i < j <= |es| ensures WithinNominal(l, es, key, i, j) {
        Throughput(l, es, key, i, j);
      }
    } else {
      assert Ordered(TwoBursts(l)) && IsTwoBursts(l, TwoBursts(l));
      EvictedGrant(l, TwoBursts(l));
    }
  }
}
