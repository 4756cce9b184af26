/**
  * The per-tenant token bucket with eviction of idle buckets. Token amounts
  * are exact: they are counted in billionths of a token, and times in
  * nanoseconds, so a refill is rps * elapsed.
  */
module RateLimiter {
  import opened Basics

  type Tenant = string

  const UNIT: int := 1_000_000_000

  datatype Bucket = Bucket(tokens: int, lastUpdate: int, lastAccess: int)

  type Buckets = map<Tenant, Bucket>

  // ----- what the two operations do -----

  // A bucket's tokens at `now`, refilled and capped at one second's worth.
  function Refilled(rps: int, b: Bucket, now: int): int {
    Min(b.tokens + (now - b.lastUpdate) * rps, rps * UNIT)
  }

  // One request at `now`: the new bucket, and whether the request is allowed.
  function Spend(rps: int, ob: Option<Bucket>, now: int): (Bucket, bool) {
    var b := if ob.Some? then ob.value else Bucket(rps * UNIT, now, now);
    var tokens := Refilled(rps, b, now);
    if tokens >= UNIT then (Bucket(tokens - UNIT, now, now), true) else (Bucket(tokens, now, now), false)
  }

  predicate Idle(ttl: int, b: Bucket, now: int) {
    now - b.lastAccess > ttl
  }

  function Get(m: Buckets, t: Tenant): Option<Bucket> {
    if t in m then Some(m[t]) else None
  }

  function Kept(ttl: int, m: Buckets, now: int): Buckets {
    map t | t in m && !Idle(ttl, m[t], now) :: m[t]
  }

  class Limiter {
    const rps: int
    const ttl: int
    var limiters: Buckets

    constructor (rps: int, ttl: int)
      ensures this.rps == rps && this.ttl == ttl && limiters == map[]
    {
      this.rps := rps;
      this.ttl := ttl;
      limiters := map[];
    }

    method Allow(tenant: Tenant, now: int) returns (ok: bool, limit: int, remaining: int)
      modifies this
      ensures var (b, admitted) := Spend(rps, Get(old(limiters), tenant), now);
              limiters == old(limiters)[tenant := b] && ok == admitted
      ensures limit == rps
      ensures remaining == if ok then limiters[tenant].tokens / UNIT else 0
    {
      if tenant !in limiters {
        limiters := limiters[tenant := Bucket(rps * UNIT, now, now)];
      }
      var b := limiters[tenant];
      b := b.(lastAccess := now);
      b := b.(tokens := b.tokens + (now - b.lastUpdate) * rps);
      if b.tokens > rps * UNIT {
        b := b.(tokens := rps * UNIT);
      }
      b := b.(lastUpdate := now);
      if b.tokens >= UNIT {
        b := b.(tokens := b.tokens - UNIT);
        limiters := limiters[tenant := b];
        return true, rps, b.tokens / UNIT;
      }
      limiters := limiters[tenant := b];
      return false, rps, 0;
    }

    method Cleanup(now: int)
      modifies this
      ensures limiters == Kept(ttl, old(limiters), now)
    {
      var todo := limiters.Keys;
      while todo != {}
        invariant todo <= old(limiters).Keys && limiters.Keys <= old(limiters).Keys
        invariant forall t :: t in limiters ==> limiters[t] == old(limiters)[t]
        invariant todo <= limiters.Keys
        invariant forall t :: t in old(limiters) && t !in todo ==> (t in limiters <==> !Idle(ttl, old(limiters)[t], now))
        decreases todo
      {
        var t :| t in todo;
        if Idle(ttl, limiters[t], now) {
          limiters := limiters - {t};
        }
        todo := todo - {t};
      }
    }
  }

  // ----- runs -----

  datatype Event = Request(tenant: Tenant, now: int) | Sweep(now: int)

  ghost predicate Ordered(events: seq<Event>, from: int)
    decreases |events|
  {
    |events| == 0 || (from <= events[0].now && Ordered(events[1..], events[0].now))
  }

  function Next(rps: int, ttl: int, evict: bool, m: Buckets, e: Event): Buckets {
    match e
    case Request(t, now) => m[t := Spend(rps, Get(m, t), now).0]
    case Sweep(now) => if evict then Kept(ttl, m, now) else m
  }

  // The answers to all requests of a run, in order. With `evict` off, sweeps
  // do nothing.
  function Answers(rps: int, ttl: int, evict: bool, m: Buckets, events: seq<Event>): seq<bool>
    decreases |events|, rps
  {
    if |events| == 0 then []
    else
      (if events[0].Request? then [Spend(rps, Get(m, events[0].tenant), events[0].now).1] else []) +
      Answers(rps, ttl, evict, Next(rps, ttl, evict, m, events[0]), events[1..])
  }

  // The answers given to one tenant.
  function AnswersFor(rps: int, ttl: int, evict: bool, m: Buckets, events: seq<Event>, t: Tenant): seq<bool>
    decreases |events|, rps
  {
    if |events| == 0 then []
    else
      var e := events[0];
      (if e.Request? && e.tenant == t then [Spend(rps, Get(m, t), e.now).1] else []) +
      AnswersFor(rps, ttl, evict, Next(rps, ttl, evict, m, e), events[1..], t)
  }

  // ----- tenants do not affect each other -----

  function OnlyOf(events: seq<Event>, t: Tenant): seq<Event> {
    if |events| == 0 then []
    else (if events[0].Request? && events[0].tenant != t then [] else [events[0]]) + OnlyOf(events[1..], t)
  }

  // A tenant's answers are the same with everybody else's requests removed
  // and everybody else's buckets forgotten.
  lemma {:induction false} TenantsAreIndependent(rps: int, ttl: int, evict: bool, m: Buckets, n: Buckets, events: seq<Event>, t: Tenant)
    requires Get(m, t) == Get(n, t)
    ensures AnswersFor(rps, ttl, evict, m, events, t) == AnswersFor(rps, ttl, evict, n, OnlyOf(events, t), t)
    decreases |events|
  {
    if |events| > 0 {
      var e, rest := events[0], events[1..];
      var m' := Next(rps, ttl, evict, m, e);
      if e.Request? && e.tenant != t {
        assert Get(m', t) == Get(m, t);
        TenantsAreIndependent(rps, ttl, evict, m', n, rest, t);
        assert OnlyOf(events, t) == OnlyOf(rest, t);
      } else {
        var n' := Next(rps, ttl, evict, n, e);
        assert Get(m', t) == Get(n', t);
        TenantsAreIndependent(rps, ttl, evict, m', n', rest, t);
        var only := OnlyOf(events, t);
        assert only[0] == e && only[1..] == OnlyOf(rest, t);
      }
    }
  }

  // ----- the rate bound, without eviction -----

  // Buckets between empty and full, not from the future.
  ghost predicate Sane(rps: int, m: Buckets, now: int) {
    forall t :: t in m ==> 0 <= m[t].tokens <= rps * UNIT && m[t].lastUpdate <= now && m[t].lastAccess == m[t].lastUpdate
  }

  function Available(rps: int, ob: Option<Bucket>, now: int): int {
    if ob.Some? then Refilled(rps, ob.value, now) else rps * UNIT
  }

  function Admitted(answers: seq<bool>): nat {
    if |answers| == 0 then 0 else (if answers[0] then 1 else 0) + Admitted(answers[1..])
  }

  function LastTime(events: seq<Event>, from: int): int {
    if |events| == 0 then from else events[|events| - 1].now
  }

  lemma {:induction false} NonNegativeProduct(a: int, b: int)
    requires a >= 0 && b >= 0
    ensures a * b >= 0
  {
  }

  // Waiting adds at most rps per nanosecond.
  lemma {:induction false} AvailableGrows(rps: int, ob: Option<Bucket>, from: int, to: int)
    requires rps >= 0 && from <= to
    ensures Available(rps, ob, from) <= Available(rps, ob, to) <= Available(rps, ob, from) + rps * (to - from)
  {
    NonNegativeProduct(rps, to - from);
    if ob.Some? {
      var b := ob.value;
      assert (to - b.lastUpdate) * rps == (from - b.lastUpdate) * rps + rps * (to - from);
    }
  }

  lemma {:induction false} SpendTakes(rps: int, ob: Option<Bucket>, now: int)
    requires rps >= 0
    requires ob.Some? ==> 0 <= ob.value.tokens <= rps * UNIT && ob.value.lastUpdate <= now
    ensures var (b, ok) := Spend(rps, ob, now);
            && 0 <= b.tokens <= rps * UNIT && b.lastUpdate == b.lastAccess == now
            && Available(rps, Some(b), now) == Available(rps, ob, now) - (if ok then UNIT else 0)
  {
    if ob.Some? {
      NonNegativeProduct(now - ob.value.lastUpdate, rps);
    }
    var b := Spend(rps, ob, now).0;
    assert (now - b.lastUpdate) * rps == 0;
    assert (now - now) * rps == 0;
  }

  lemma {:induction false} NextSane(rps: int, ttl: int, evict: bool, m: Buckets, from: int, e: Event)
    requires rps >= 0 && Sane(rps, m, from) && from <= e.now
    ensures Sane(rps, Next(rps, ttl, evict, m, e), e.now)
  {
    if e.Request? {
      SpendTakes(rps, Get(m, e.tenant), e.now);
    }
  }

  // What one event does to the tokens available to t and to its answers.
  lemma {:induction false} EventCovered(rps: int, ttl: int, m: Buckets, from: int, e: Event, rest: seq<Event>, t: Tenant)
    requires rps >= 0 && Sane(rps, m, from) && from <= e.now
    ensures var m' := Next(rps, ttl, false, m, e);
            Admitted(AnswersFor(rps, ttl, false, m, [e] + rest, t)) * UNIT + Available(rps, Get(m', t), e.now)
              <= Admitted(AnswersFor(rps, ttl, false, m', rest, t)) * UNIT + Available(rps, Get(m, t), from) + rps * (e.now - from)
  {
    var m' := Next(rps, ttl, false, m, e);
    var later := AnswersFor(rps, ttl, false, m', rest, t);
    AvailableGrows(rps, Get(m, t), from, e.now);
    assert ([e] + rest)[0] == e && ([e] + rest)[1..] == rest;
    if e.Request? && e.tenant == t {
      SpendTakes(rps, Get(m, t), e.now);
      var ok := Spend(rps, Get(m, t), e.now).1;
      assert ([ok] + later)[1..] == later;
    } else {
      assert [] + later == later;
      assert Get(m', t) == Get(m, t);
    }
  }

  // From any point of a run: what one tenant is admitted is covered by what
  // was available and what the elapsed time refilled.
  lemma {:induction false} AdmittedIsCovered(rps: int, ttl: int, m: Buckets, from: int, events: seq<Event>, t: Tenant)
    requires rps >= 0 && Sane(rps, m, from) && Ordered(events, from)
    ensures Admitted(AnswersFor(rps, ttl, false, m, events, t)) * UNIT
         <= Available(rps, Get(m, t), from) + rps * (LastTime(events, from) - from)
    decreases |events|
  {
    if |events| == 0 {
      AvailableIsNonNegative(rps, m, from, t);
      assert rps * (LastTime(events, from) - from) == 0;
    } else {
      var e, rest := events[0], events[1..];
      assert events == [e] + rest;
      NextSane(rps, ttl, false, m, from, e);
      AdmittedIsCovered(rps, ttl, Next(rps, ttl, false, m, e), e.now, rest, t);
      assert LastTime(rest, e.now) == LastTime(events, from);
      EventCovered(rps, ttl, m, from, e, rest, t);
      SplitProduct(rps, LastTime(events, from), e.now, from);
    }
  }

  lemma {:induction false} AvailableIsNonNegative(rps: int, m: Buckets, now: int, t: Tenant)
    requires rps >= 0 && Sane(rps, m, now)
    ensures Available(rps, Get(m, t), now) >= 0
  {
    NonNegativeProduct(rps, UNIT);
    if t in m {
      NonNegativeProduct(now - m[t].lastUpdate, rps);
    }
  }

  lemma {:induction false} SplitProduct(rps: int, c: int, b: int, a: int)
    ensures rps * (c - a) == rps * (c - b) + rps * (b - a)
  {
  }

  // ----- eviction -----

  // The evicting limiter agrees with the other one, except that it may have
  // forgotten buckets that are full again.
  ghost predicate Forgot(rps: int, m: Buckets, n: Buckets, now: int) {
    forall t :: Get(m, t) == Get(n, t) || (Get(m, t).None? && Available(rps, Get(n, t), now) == rps * UNIT)
  }

  lemma {:induction false} ForgotLater(rps: int, m: Buckets, n: Buckets, from: int, to: int)
    requires rps >= 0 && Forgot(rps, m, n, from) && from <= to
    ensures Forgot(rps, m, n, to)
  {
    forall t ensures Get(m, t) == Get(n, t) || (Get(m, t).None? && Available(rps, Get(n, t), to) == rps * UNIT) {
      AvailableGrows(rps, Get(n, t), from, to);
    }
  }

  // A bucket that was idle for a second is full.
  lemma {:induction false} IdleIsFull(rps: int, ttl: int, b: Bucket, now: int)
    requires rps >= 0 && ttl >= UNIT - 1 && b.tokens >= 0 && b.lastAccess == b.lastUpdate && Idle(ttl, b, now)
    ensures Refilled(rps, b, now) == rps * UNIT
  {
    NonNegativeProduct(now - b.lastUpdate - UNIT, rps);
  }

  lemma {:induction false} ForgotNext(rps: int, ttl: int, m: Buckets, n: Buckets, from: int, e: Event)
    requires rps >= 0 && ttl >= UNIT - 1 && Sane(rps, n, from) && from <= e.now && Forgot(rps, m, n, e.now)
    ensures Forgot(rps, Next(rps, ttl, true, m, e), Next(rps, ttl, false, n, e), e.now)
    ensures e.Request? ==> Spend(rps, Get(m, e.tenant), e.now) == Spend(rps, Get(n, e.tenant), e.now)
  {
    match e
    case Request(t, now) =>
      assert (now - now) * rps == 0;
      var b := Spend(rps, Get(n, t), now).0;
      var m', n' := m[t := b], n[t := b];
      forall u ensures Get(m', u) == Get(n', u) || (Get(m', u).None? && Available(rps, Get(n', u), now) == rps * UNIT) {
        assert Get(m, u) == Get(n, u) || (Get(m, u).None? && Available(rps, Get(n, u), now) == rps * UNIT);
      }
    case Sweep(now) =>
      forall t ensures Get(Kept(ttl, m, now), t) == Get(n, t)
                       || (Get(Kept(ttl, m, now), t).None? && Available(rps, Get(n, t), now) == rps * UNIT) {
        if t in m && Idle(ttl, m[t], now) {
          assert Get(m, t) == Get(n, t);
          IdleIsFull(rps, ttl, m[t], now);
        }
      }
  }

  lemma {:induction false} SameAnswers(rps: int, ttl: int, m: Buckets, n: Buckets, from: int, events: seq<Event>, t: Tenant)
    requires rps >= 0 && ttl >= UNIT - 1 && Sane(rps, n, from) && Ordered(events, from) && Forgot(rps, m, n, from)
    ensures Answers(rps, ttl, true, m, events) == Answers(rps, ttl, false, n, events)
    ensures AnswersFor(rps, ttl, true, m, events, t) == AnswersFor(rps, ttl, false, n, events, t)
    decreases |events|
  {
    if |events| > 0 {
      var e := events[0];
      ForgotLater(rps, m, n, from, e.now);
      ForgotNext(rps, ttl, m, n, from, e);
      NextSane(rps, ttl, false, n, from, e);
      SameAnswers(rps, ttl, Next(rps, ttl, true, m, e), Next(rps, ttl, false, n, e), e.now, events[1..], t);
    }
  }

  // ----- main results -----

  function After(rps: int, ttl: int, evict: bool, m: Buckets, events: seq<Event>): Buckets
    decreases |events|, rps
  {
    if |events| == 0 then m else After(rps, ttl, evict, Next(rps, ttl, evict, m, events[0]), events[1..])
  }

  lemma {:induction false} ForgotAfter(rps: int, ttl: int, m: Buckets, n: Buckets, from: int, events: seq<Event>)
    requires rps >= 0 && ttl >= UNIT - 1 && Sane(rps, n, from) && Ordered(events, from) && Forgot(rps, m, n, from)
    ensures Sane(rps, After(rps, ttl, false, n, events), LastTime(events, from))
    ensures Forgot(rps, After(rps, ttl, true, m, events), After(rps, ttl, false, n, events), LastTime(events, from))
    decreases |events|
  {
    if |events| > 0 {
      var e := events[0];
      ForgotLater(rps, m, n, from, e.now);
      ForgotNext(rps, ttl, m, n, from, e);
      NextSane(rps, ttl, false, n, from, e);
      ForgotAfter(rps, ttl, Next(rps, ttl, true, m, e), Next(rps, ttl, false, n, e), e.now, events[1..]);
      assert LastTime(events[1..], e.now) == LastTime(events, from);
    }
  }

  // In any stretch of a run, sweeps included, a tenant is admitted at most
  // rps + rps * (duration of the stretch in seconds) times.
  lemma {:induction false} RateIsBounded(rps: int, ttl: int, before: seq<Event>, stretch: seq<Event>, start: int, t: Tenant)
    requires rps >= 0 && ttl >= UNIT - 1 && |stretch| > 0
    requires Ordered(before, start) && Ordered(stretch, LastTime(before, start))
    ensures Admitted(AnswersFor(rps, ttl, true, After(rps, ttl, true, map[], before), stretch, t)) * UNIT
         <= rps * UNIT + rps * (LastTime(stretch, start) - stretch[0].now)
  {
    var now, first := LastTime(before, start), stretch[0].now;
    ForgotAfter(rps, ttl, map[], map[], start, before);
    var m, n := After(rps, ttl, true, map[], before), After(rps, ttl, false, map[], before);
    ForgotLater(rps, m, n, now, first);
    SameAnswers(rps, ttl, m, n, first, stretch, t);
    AdmittedIsCovered(rps, ttl, n, first, stretch, t);
  }

  // No run shows whether idle buckets are evicted.
  ghost predicate EvictionIsInvisible(rps: int, ttl: int) {
    forall events, from :: Ordered(events, from) ==>
      Answers(rps, ttl, true, map[], events) == Answers(rps, ttl, false, map[], events)
  }

  // k requests of one tenant at the same time.
  function Calls(k: nat, t: Tenant, now: int): seq<Event> {
    if k == 0 then [] else [Request(t, now)] + Calls(k - 1, t, now)
  }

  ghost predicate OnlyTenant(events: seq<Event>, t: Tenant) {
    |events| == 0 || ((events[0].Request? ==> events[0].tenant == t) && OnlyTenant(events[1..], t))
  }

  lemma {:induction false} SoleTenant(rps: int, ttl: int, evict: bool, m: Buckets, events: seq<Event>, t: Tenant)
    requires OnlyTenant(events, t)
    ensures Answers(rps, ttl, evict, m, events) == AnswersFor(rps, ttl, evict, m, events, t)
    decreases |events|
  {
    if |events| > 0 {
      SoleTenant(rps, ttl, evict, Next(rps, ttl, evict, m, events[0]), events[1..], t);
    }
  }

  lemma {:induction false} AnswersConcat(rps: int, ttl: int, evict: bool, m: Buckets, a: seq<Event>, b: seq<Event>)
    ensures Answers(rps, ttl, evict, m, a + b)
         == Answers(rps, ttl, evict, m, a) + Answers(rps, ttl, evict, After(rps, ttl, evict, m, a), b)
    decreases |a|
  {
    if |a| == 0 {
      assert a + b == b;
    } else {
      assert (a + b)[0] == a[0] && (a + b)[1..] == a[1..] + b;
      AnswersConcat(rps, ttl, evict, Next(rps, ttl, evict, m, a[0]), a[1..], b);
    }
  }

  lemma {:induction false} AdmittedConcat(a: seq<bool>, b: seq<bool>)
    ensures Admitted(a + b) == Admitted(a) + Admitted(b)
  {
    if |a| == 0 {
      assert a + b == b;
    } else {
      assert (a + b)[0] == a[0] && (a + b)[1..] == a[1..] + b;
      AdmittedConcat(a[1..], b);
    }
  }

  // A burst that the bucket can pay for is admitted in full.
  lemma {:induction false} BurstIsAdmitted(rps: int, ttl: int, evict: bool, m: Buckets, k: nat, t: Tenant, now: int)
    requires rps >= 0 && Sane(rps, m, now) && Available(rps, Get(m, t), now) >= k * UNIT
    ensures Admitted(Answers(rps, ttl, evict, m, Calls(k, t, now))) == k
    ensures var after := After(rps, ttl, evict, m, Calls(k, t, now));
            Sane(rps, after, now) && (k == 0 ==> after == m) && (k > 0 ==> t in after && after[t].lastAccess == now)
    decreases k
  {
    if k > 0 {
      var all, e := Calls(k, t, now), Request(t, now);
      assert all[0] == e && all[1..] == Calls(k - 1, t, now);
      SpendTakes(rps, Get(m, t), now);
      NextSane(rps, ttl, evict, m, now, e);
      BurstIsAdmitted(rps, ttl, evict, Next(rps, ttl, evict, m, e), k - 1, t, now);
      var later := Answers(rps, ttl, evict, Next(rps, ttl, evict, m, e), Calls(k - 1, t, now));
      assert Answers(rps, ttl, evict, m, all) == [true] + later && ([true] + later)[1..] == later;
    }
  }

  // ----- exactly which requests are refused -----

  lemma {:induction false} AnswersForConcat(rps: int, ttl: int, evict: bool, m: Buckets, a: seq<Event>, b: seq<Event>, t: Tenant)
    ensures AnswersFor(rps, ttl, evict, m, a + b, t)
         == AnswersFor(rps, ttl, evict, m, a, t) + AnswersFor(rps, ttl, evict, After(rps, ttl, evict, m, a), b, t)
    ensures After(rps, ttl, evict, m, a + b) == After(rps, ttl, evict, After(rps, ttl, evict, m, a), b)
    decreases |a|
  {
    if |a| == 0 {
      assert a + b == b;
    } else {
      assert (a + b)[0] == a[0] && (a + b)[1..] == a[1..] + b;
      AnswersForConcat(rps, ttl, evict, Next(rps, ttl, evict, m, a[0]), a[1..], b, t);
    }
  }

  // What one tenant was admitted in a run from the start, without eviction.
  function AdmittedIn(rps: int, ttl: int, events: seq<Event>, t: Tenant): nat {
    Admitted(AnswersFor(rps, ttl, false, map[], events, t))
  }

  // The moments of a run: its events, and `now`.
  function Moment(events: seq<Event>, i: nat, now: int): int {
    if i < |events| then events[i].now else now
  }

  // What a second's worth and the time since moment i allow, less what was
  // admitted since.
  function Left(rps: int, ttl: int, events: seq<Event>, t: Tenant, i: nat, now: int): int
    requires i <= |events|
  {
    rps * UNIT + rps * (now - Moment(events, i, now))
      - (AdmittedIn(rps, ttl, events, t) - AdmittedIn(rps, ttl, events[..i], t)) * UNIT
  }

  // An earlier moment since which the tenant has used up its rate: one more
  // admission would exceed a second's worth and the elapsed time.
  ghost predicate UsedUp(rps: int, ttl: int, events: seq<Event>, t: Tenant, i: nat, now: int)
    requires i <= |events|
  {
    var k := AdmittedIn(rps, ttl, events, t) - AdmittedIn(rps, ttl, events[..i], t);
    (k + 1) * UNIT > rps * UNIT + rps * (now - Moment(events, i, now))
  }

  // Waiting refills up to a second's worth and not beyond.
  lemma {:induction false} AvailableLater(rps: int, ob: Option<Bucket>, from: int, to: int)
    requires rps >= 0 && from <= to && Available(rps, ob, from) <= rps * UNIT
    ensures Available(rps, ob, to) == Min(Available(rps, ob, from) + rps * (to - from), rps * UNIT)
  {
    NonNegativeProduct(rps, to - from);
    if ob.Some? {
      var b := ob.value;
      assert (to - b.lastUpdate) * rps == (from - b.lastUpdate) * rps + rps * (to - from);
    }
  }

  // How one more event at the end of a run changes what is left.
  lemma {:induction false} LeftAfter(rps: int, ttl: int, init: seq<Event>, e: Event, t: Tenant, i: nat, now: int)
    requires i <= |init|
    ensures var m, events := After(rps, ttl, false, map[], init), init + [e];
            var spent := if e.Request? && e.tenant == t && Spend(rps, Get(m, t), e.now).1 then 1 else 0;
            && AdmittedIn(rps, ttl, events, t) == AdmittedIn(rps, ttl, init, t) + spent
            && Left(rps, ttl, events, t, i, now) == Left(rps, ttl, init, t, i, e.now) + rps * (now - e.now) - spent * UNIT
            && Left(rps, ttl, events, t, |events|, now) == rps * UNIT
  {
    var m, events := After(rps, ttl, false, map[], init), init + [e];
    AnswersForConcat(rps, ttl, false, map[], init, [e], t);
    var last := AnswersFor(rps, ttl, false, m, [e], t);
    AdmittedConcat(AnswersFor(rps, ttl, false, map[], init, t), last);
    LastAnswer(rps, ttl, m, e, t);
    assert events[..i] == init[..i] && events[..|events|] == events;
    assert Moment(events, i, now) == Moment(init, i, e.now);
    SplitProduct(rps, now, e.now, Moment(init, i, e.now));
    assert rps * (now - now) == 0;
  }

  lemma {:induction false} LastAnswer(rps: int, ttl: int, m: Buckets, e: Event, t: Tenant)
    ensures AnswersFor(rps, ttl, false, m, [e], t)
         == if e.Request? && e.tenant == t then [Spend(rps, Get(m, t), e.now).1] else []
    ensures Admitted(AnswersFor(rps, ttl, false, m, [e], t))
         == if e.Request? && e.tenant == t && Spend(rps, Get(m, t), e.now).1 then 1 else 0
    ensures After(rps, ttl, false, m, [e]) == Next(rps, ttl, false, m, e)
  {
    var rest: seq<Event> := [e][1..];
    assert AnswersFor(rps, ttl, false, Next(rps, ttl, false, m, e), rest, t) == [];
    assert After(rps, ttl, false, Next(rps, ttl, false, m, e), rest) == Next(rps, ttl, false, m, e);
    var a := AnswersFor(rps, ttl, false, m, [e], t);
    assert |a| <= 1;
    assert |a| == 1 ==> Admitted(a[1..]) == 0;
  }

  // The tokens a tenant can spend are the smallest of what is left since any
  // moment of the run; `least` is such a moment.
  ghost predicate LeastLeft(rps: int, ttl: int, events: seq<Event>, t: Tenant, now: int, tokens: int, least: nat) {
    && least <= |events| && tokens == Left(rps, ttl, events, t, least, now)
    && forall i :: 0 <= i <= |events| ==> tokens <= Left(rps, ttl, events, t, i, now)
  }

  lemma {:induction false} OrderedInit(events: seq<Event>, start: int)
    requires |events| > 0 && Ordered(events, start)
    ensures Ordered(events[..|events| - 1], start)
    ensures LastTime(events[..|events| - 1], start) <= events[|events| - 1].now
    decreases |events|
  {
    if |events| > 1 {
      OrderedInit(events[1..], events[0].now);
      assert events[1..][..|events| - 2] == events[..|events| - 1][1..];
      assert LastTime(events[1..][..|events| - 2], events[0].now) == LastTime(events[..|events| - 1], start);
    }
  }

  lemma {:induction false} SaneAfter(rps: int, ttl: int, m: Buckets, events: seq<Event>, start: int)
    requires rps >= 0 && Sane(rps, m, start) && Ordered(events, start)
    ensures Sane(rps, After(rps, ttl, false, m, events), LastTime(events, start))
    decreases |events|
  {
    if |events| > 0 {
      NextSane(rps, ttl, false, m, start, events[0]);
      SaneAfter(rps, ttl, Next(rps, ttl, false, m, events[0]), events[1..], events[0].now);
      assert LastTime(events[1..], events[0].now) == LastTime(events, start);
    }
  }

  // Which moment leaves the least after one more event and a wait.
  lemma {:induction false} LeastAfter(rps: int, ttl: int, init: seq<Event>, e: Event, t: Tenant, now: int,
                                      before: int, least: nat, spent: nat) returns (next: nat)
    requires rps >= 0 && e.now <= now && LeastLeft(rps, ttl, init, t, e.now, before, least)
    requires spent == if e.Request? && e.tenant == t && Spend(rps, Get(After(rps, ttl, false, map[], init), t), e.now).1 then 1 else 0
    ensures LeastLeft(rps, ttl, init + [e], t, now, Min(before - spent * UNIT + rps * (now - e.now), rps * UNIT), next)
  {
    var events, tokens := init + [e], Min(before - spent * UNIT + rps * (now - e.now), rps * UNIT);
    LeftAfter(rps, ttl, init, e, t, least, now);
    next := if before - spent * UNIT + rps * (now - e.now) <= rps * UNIT then least else |events|;
    forall i | 0 <= i <= |events| ensures tokens <= Left(rps, ttl, events, t, i, now) {
      if i <= |init| {
        LeftAfter(rps, ttl, init, e, t, i, now);
      }
    }
  }

  // At every time of every run: the tokens of a tenant are exactly the least
  // that its admissions since some moment leave.
  lemma {:induction false} TokensExactly(rps: int, ttl: int, events: seq<Event>, start: int, t: Tenant, now: int) returns (least: nat)
    requires rps >= 0 && Ordered(events, start) && LastTime(events, start) <= now
    ensures LeastLeft(rps, ttl, events, t, now, Available(rps, Get(After(rps, ttl, false, map[], events), t), now), least)
    decreases |events|
  {
    if |events| == 0 {
      least := 0;
      assert events[..0] == events && rps * (now - now) == 0;
    } else {
      var init, e := events[..|events| - 1], events[|events| - 1];
      assert events == init + [e];
      OrderedInit(events, start);
      SaneAfter(rps, ttl, map[], init, start);
      var before := TokensExactly(rps, ttl, init, start, t, e.now);
      var m := After(rps, ttl, false, map[], init);
      AnswersForConcat(rps, ttl, false, map[], init, [e], t);
      LastAnswer(rps, ttl, m, e, t);
      var spent := if e.Request? && e.tenant == t && Spend(rps, Get(m, t), e.now).1 then 1 else 0;
      EventTakes(rps, ttl, m, LastTime(init, start), e, t);
      AvailableLater(rps, Get(Next(rps, ttl, false, m, e), t), e.now, now);
      least := LeastAfter(rps, ttl, init, e, t, now, Available(rps, Get(m, t), e.now), before, spent);
    }
  }

  // What an event takes from the tokens of one tenant.
  lemma {:induction false} EventTakes(rps: int, ttl: int, m: Buckets, from: int, e: Event, t: Tenant)
    requires rps >= 0 && Sane(rps, m, from) && from <= e.now
    ensures var spent := if e.Request? && e.tenant == t && Spend(rps, Get(m, t), e.now).1 then 1 else 0;
            && Available(rps, Get(Next(rps, ttl, false, m, e), t), e.now) == Available(rps, Get(m, t), e.now) - spent * UNIT
            && Available(rps, Get(Next(rps, ttl, false, m, e), t), e.now) <= rps * UNIT
  {
    if e.Request? && e.tenant == t {
      SpendTakes(rps, Get(m, t), e.now);
    } else {
      assert Get(Next(rps, ttl, false, m, e), t) == Get(m, t);
    }
  }

  // The law of the limiter, in terms of events and answers only: a request is
  // refused if and only if since some earlier moment of the run one more
  // admission would exceed a second's worth plus the rate times the time since.
  lemma {:induction false} RefusedExactly(rps: int, ttl: int, events: seq<Event>, start: int, t: Tenant, now: int)
    requires rps >= 0 && Ordered(events, start) && LastTime(events, start) <= now
    ensures AnswersFor(rps, ttl, false, map[], events + [Request(t, now)], t)
         == AnswersFor(rps, ttl, false, map[], events, t) + [!exists i :: 0 <= i <= |events| && UsedUp(rps, ttl, events, t, i, now)]
  {
    var m, e := After(rps, ttl, false, map[], events), Request(t, now);
    AnswersForConcat(rps, ttl, false, map[], events, [e], t);
    LastAnswer(rps, ttl, m, e, t);
    var least := TokensExactly(rps, ttl, events, start, t, now);
    var tokens := Available(rps, Get(m, t), now);
    assert (now - now) * rps == 0;
    assert Spend(rps, Get(m, t), now).1 == (tokens >= UNIT);
    forall i | 0 <= i <= |events| ensures UsedUp(rps, ttl, events, t, i, now) <==> Left(rps, ttl, events, t, i, now) < UNIT {
    }
    assert UsedUp(rps, ttl, events, t, least, now) <==> tokens < UNIT;
  }

  // rps requests at time 0, a sweep, and rps requests again at time `later`.
  function TwoBursts(rps: nat, t: Tenant, later: int): seq<Event> {
    Calls(rps, t, 0) + ([Sweep(later)] + Calls(rps, t, later))
  }

  lemma {:induction false} CallsAreOrdered(k: nat, t: Tenant, now: int, rest: seq<Event>, from: int)
    requires from <= now && Ordered(rest, now) && OnlyTenant(rest, t)
    ensures OnlyTenant(Calls(k, t, now) + rest, t)
    ensures k > 0 || from == now ==> Ordered(Calls(k, t, now) + rest, from)
    decreases k
  {
    var all := Calls(k, t, now) + rest;
    if k == 0 {
      assert all == rest;
    } else {
      assert all[0] == Request(t, now) && all[1..] == Calls(k - 1, t, now) + rest;
      CallsAreOrdered(k - 1, t, now, rest, now);
    }
  }

  lemma {:induction false} TwoBurstsOrdered(rps: nat, t: Tenant, later: int)
    requires later >= 0
    ensures Ordered(TwoBursts(rps, t, later), 0) && OnlyTenant(TwoBursts(rps, t, later), t)
    ensures LastTime(TwoBursts(rps, t, later), 0) == later
  {
    var tail := [Sweep(later)] + Calls(rps, t, later);
    CallsAreOrdered(rps, t, later, [], later);
    assert Calls(rps, t, later) + [] == Calls(rps, t, later);
    assert tail[0] == Sweep(later) && tail[1..] == Calls(rps, t, later);
    CallsAreOrdered(rps, t, 0, tail, 0);
    LastCall(rps, t, later);
  }

  lemma {:induction false} LastCall(k: nat, t: Tenant, now: int)
    ensures LastTime(Calls(k, t, now), now) == now
  {
    if k > 1 {
      LastCall(k - 1, t, now);
    }
  }

  // With eviction both bursts are admitted in full.
  lemma {:induction false} EvictedBursts(rps: nat, ttl: int, t: Tenant, later: int)
    requires rps >= 1 && 0 <= later && ttl < later
    ensures Admitted(Answers(rps, ttl, true, map[], TwoBursts(rps, t, later))) == 2 * rps
  {
    var first, tail := Calls(rps, t, 0), [Sweep(later)] + Calls(rps, t, later);
    BurstIsAdmitted(rps, ttl, true, map[], rps, t, 0);
    var m := After(rps, ttl, true, map[], first);
    AnswersConcat(rps, ttl, true, map[], first, tail);
    AdmittedConcat(Answers(rps, ttl, true, map[], first), Answers(rps, ttl, true, m, tail));
    var swept := Kept(ttl, m, later);
    assert t !in swept;
    assert tail[0] == Sweep(later) && tail[1..] == Calls(rps, t, later);
    assert Answers(rps, ttl, true, m, tail) == Answers(rps, ttl, true, swept, Calls(rps, t, later));
    BurstIsAdmitted(rps, ttl, true, swept, rps, t, later);
  }

  // Without eviction they are not, unless a full second has passed.
  lemma {:induction false} KeptBursts(rps: nat, ttl: int, t: Tenant, later: int)
    requires rps >= 1 && 0 <= later < UNIT
    ensures Admitted(Answers(rps, ttl, false, map[], TwoBursts(rps, t, later))) < 2 * rps
  {
    var events := TwoBursts(rps, t, later);
    TwoBurstsOrdered(rps, t, later);
    SoleTenant(rps, ttl, false, map[], events, t);
    AdmittedIsCovered(rps, ttl, map[], 0, events, t);
    NonNegativeProduct(rps - 1, UNIT - later - 1);
    assert rps * later < rps * UNIT;
  }

  // For a positive rate eviction is invisible exactly when the time to live
  // is at least a second (to the nanosecond: a bucket is evicted when it has
  // been idle for longer than that).
  lemma {:induction false} EvictionIsInvisibleIff(rps: int, ttl: int)
    requires rps >= 1
    ensures EvictionIsInvisible(rps, ttl) <==> ttl >= UNIT - 1
  {
    if ttl >= UNIT - 1 {
      forall events, from | Ordered(events, from)
        ensures Answers(rps, ttl, true, map[], events) == Answers(rps, ttl, false, map[], events)
      {
        SameAnswers(rps, ttl, map[], map[], from, events, "");
      }
    } else {
      var later := if ttl < 0 then 0 else ttl + 1;
      TwoBurstsOrdered(rps, "", later);
      EvictedBursts(rps, ttl, "", later);
      KeptBursts(rps, ttl, "", later);
    }
  }
}
