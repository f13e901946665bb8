/**
 The keyed rate limiter: one token bucket per key, made on first use and deleted by a
 background tick once unused for longer than `ttl`. A bucket is kept in exact units
 of 1/UNIT token, so that every nanosecond adds `perMin` units. As in
 golang.org/x/time/rate, waiting times are whole nanoseconds, rounded down.
 */
module RateLimit {
  import opened Prelude

  /** One token: a minute's worth of nanoseconds, so that `perMin` per minute is `perMin` units per nanosecond. */
  const UNIT: int := 60 * SECOND

  datatype Limits = Limits(perMin: int, burst: int, ttl: Time)

  predicate IsLimits(l: Limits) {
    l.perMin > 0 && l.burst >= 0 && l.ttl > 0
  }

  datatype Bucket = Bucket(tokens: int, last: Time)
  datatype Entry = Entry(bucket: Bucket, lastSeen: Time)
  type Entries = map<string, Entry>

  datatype Decision = Allowed | Denied(retryAfter: nat)

  function Capacity(l: Limits): (c: int) {
    l.burst * UNIT
  }

  /** What flows in during `d` nanoseconds: `perMin` units in each. */
  function Refill(perMin: int, d: nat): (t: int) {
    if d == 0 then 0 else Refill(perMin, d - 1) + perMin
  }

  /** The tokens in a bucket at time `now`. */
  function Tokens(l: Limits, b: Bucket, now: Time): (t: int)
    ensures t <= Capacity(l)
  {
    var t := b.tokens + Refill(l.perMin, if now < b.last then 0 else now - b.last);
    if t > Capacity(l) then Capacity(l) else t
  }

  /** How often `y` goes into `x`. */
  function Quotient(x: int, y: int): (q: nat)
    requires y > 0
    decreases x
  {
    if x < y then 0 else 1 + Quotient(x - y, y)
  }

  /** The nanoseconds until a bucket of `tokens` holds a whole token, rounded down. */
  function Wait(l: Limits, tokens: int): (d: nat)
    requires l.perMin > 0
  {
    Quotient(UNIT - tokens, l.perMin)
  }

  /** A reservation on a bucket without capacity reports the longest duration, 2^63 - 1 nanoseconds. */
  const FOREVER: nat := 9_223_372_037

  function CeilSeconds(d: nat): (s: nat)
    ensures s * SECOND >= d && (s > 0 ==> (s - 1) * SECOND < d)
  {
    (d + SECOND - 1) / SECOND
  }

  function RetryAfter(l: Limits, tokens: int): (s: nat)
    requires l.perMin > 0
    ensures s >= 1
  {
    if l.burst < 1 then FOREVER
    else
      var s := CeilSeconds(Wait(l, tokens));
      if s < 1 then 1 else s
  }

  predicate Allows(l: Limits, tokens: int)
    requires l.perMin > 0
  {
    l.burst >= 1 && Wait(l, tokens) == 0
  }

  /** `Allow`, and on refusal the reservation made and cancelled to compute Retry-After. */
  function Serve(l: Limits, b: Bucket, now: Time): (r: (Bucket, Decision))
    requires l.perMin > 0
  {
    var t := Tokens(l, b, now);
    if Allows(l, t) then (Bucket(t - UNIT, now), Allowed)
    else (if l.burst < 1 then b else Bucket(t, now), Denied(RetryAfter(l, t)))
  }

  function NewBucket(l: Limits, now: Time): (b: Bucket) {
    Bucket(Capacity(l), now)
  }

  /** getLimiter and Allow for one request. */
  function Handle(l: Limits, entries: Entries, key: string, now: Time): (r: (Entries, Decision))
    requires l.perMin > 0
  {
    var b := if key in entries then entries[key].bucket else NewBucket(l, now);
    var served := Serve(l, b, now);
    (entries[key := Entry(served.0, now)], served.1)
  }

  /** One pass of the background cleanup. */
  function Evict(l: Limits, entries: Entries, now: Time): (r: Entries) {
    map k | k in entries && !(now - entries[k].lastSeen > l.ttl) :: entries[k]
  }

  class KeyedLimiter {
    const limits: Limits
    var entries: Entries

    constructor (l: Limits)
      ensures limits == l && entries == map[]
    {
      limits, entries := l, map[];
    }

    method Request(key: string, now: Time) returns (d: Decision)
      requires limits.perMin > 0
      modifies this
      ensures (entries, d) == Handle(limits, old(entries), key, now)
    {
      if key !in entries {
        entries := entries[key := Entry(NewBucket(limits, now), now)];
      }
      entries := entries[key := entries[key].(lastSeen := now)];
      var b := entries[key].bucket;
      var t := Tokens(limits, b, now);
      if limits.burst >= 1 && Wait(limits, t) == 0 {
        entries := entries[key := Entry(Bucket(t - UNIT, now), now)];
        assert entries == old(entries)[key := entries[key]];
        return Allowed;
      }
      if limits.burst >= 1 {
        entries := entries[key := Entry(Bucket(t, now), now)];
      }
      assert entries == old(entries)[key := entries[key]];
      return Denied(RetryAfter(limits, t));
    }

    method Cleanup(now: Time)
      modifies this
      ensures entries == Evict(limits, old(entries), now)
    {
      var keys := entries.Keys;
      while keys != {}
        invariant keys <= old(entries).Keys
        invariant forall k :: k in entries ==> k in old(entries) && entries[k] == old(entries)[k]
        invariant forall k ::
                    k in old(entries) && (k in keys || !(now - old(entries)[k].lastSeen > limits.ttl)) ==> k in entries
        invariant forall k ::
                    k in old(entries) && k !in keys && now - old(entries)[k].lastSeen > limits.ttl ==> k !in entries
        decreases keys
      {
        var k :| k in keys;
        if now - entries[k].lastSeen > limits.ttl {
          entries := entries - {k};
        }
        keys := keys - {k};
      }
    }
  }

  // ---------- Runs ----------

  datatype Event = Request(now: Time, key: string) | Tick(now: Time)

  function Step(l: Limits, entries: Entries, e: Event): (r: (Entries, Option<Decision>))
    requires l.perMin > 0
  {
    match e
    case Request(now, key) => var r := Handle(l, entries, key, now); (r.0, Some(r.1))
    case Tick(now) => (Evict(l, entries, now), None)
  }

  /** The limiter after the first `i` events, started empty. */
  function At(l: Limits, es: seq<Event>, i: nat): (entries: Entries)
    requires l.perMin > 0 && i <= |es|
  {
    if i == 0 then map[] else Step(l, At(l, es, i - 1), es[i - 1]).0
  }

  function Answer(l: Limits, es: seq<Event>, i: nat): (d: Option<Decision>)
    requires l.perMin > 0 && i < |es|
  {
    Step(l, At(l, es, i), es[i]).1
  }

  predicate Ordered(es: seq<Event>) {
    forall i, j :: 0 <= i <= j < |es| ==> es[i].now <= es[j].now
  }

  /** The limiter that never deletes an entry: ticks do nothing. */
  function Forgetless(l: Limits, es: seq<Event>, i: nat): (entries: Entries)
    requires l.perMin > 0 && i <= |es|
  {
    if i == 0 then map[]
    else if es[i - 1].Tick? then Forgetless(l, es, i - 1)
    else Handle(l, Forgetless(l, es, i - 1), es[i - 1].key, es[i - 1].now).0
  }

  function ForgetlessAnswer(l: Limits, es: seq<Event>, i: nat): (d: Option<Decision>)
    requires l.perMin > 0 && i < |es|
  {
    if es[i].Tick? then None else Some(Handle(l, Forgetless(l, es, i), es[i].key, es[i].now).1)
  }
}
