/**
 The per-user token bucket. Token arithmetic is over exact reals and the server clock is an input.
 A key may vanish once its time-to-live has passed since the last call that touched it; whether it
 has vanished by the time of a call is part of the call, so every eviction schedule is covered.
 */
module RateLimit {
  import opened Prelude

  datatype Bucket = Bucket(tokens: real, ts: real)

  datatype Limits = Limits(capacity: int, refill: real)
  {
    /** What the constructor establishes by coercion. */
    predicate Valid() { capacity >= 1 && refill >= 0.0 }
  }

  /** The limits after the constructor's coercions. */
  function Coerce(capacity: int, refill: real): (r: Limits)
    ensures r.Valid()
    ensures r.capacity == (if capacity >= 1 then capacity else 1) && r.refill == (if refill > 0.0 then refill else 0.0)
  {
    Limits(Max(1, capacity), if refill < 0.0 then 0.0 else refill)
  }

  function Ttl(limits: Limits): int
    requires limits.Valid()
  {
    if limits.refill > 0.0
    then Max(60, (limits.capacity as real / limits.refill * 2.0).Floor + 1)
    else 3600
  }

  datatype Answer = Answer(allowed: bool, retryAfter: real)

  /** One call: when it reaches the server, and whether the key had been evicted by then. */
  datatype Call = Call(now: real, evicted: bool)

  /** The tokens a bucket is worth at a given time; an absent bucket is worth a full one. */
  function Level(limits: Limits, bucket: Option<Bucket>, now: real): real {
    if bucket.None? then limits.capacity as real
    else
      var elapsed := if now < bucket.value.ts then 0.0 else now - bucket.value.ts;
      var tokens := bucket.value.tokens + elapsed * limits.refill;
      if tokens > limits.capacity as real then limits.capacity as real else tokens
  }

  function Seen(bucket: Option<Bucket>, call: Call): Option<Bucket> {
    if call.evicted then None else bucket
  }

  function Decide(limits: Limits, level: real): Answer
    requires limits.Valid()
  {
    if level >= 1.0 then Answer(true, 0.0)
    else if limits.refill > 0.0 then Answer(false, (1.0 - level) / limits.refill)
    else Answer(false, Ttl(limits) as real)
  }

  function Reply(limits: Limits, bucket: Option<Bucket>, call: Call): Answer
    requires limits.Valid()
  {
    Decide(limits, Level(limits, Seen(bucket, call), call.now))
  }

  function After(limits: Limits, bucket: Option<Bucket>, call: Call): Option<Bucket>
    requires limits.Valid()
  {
    var level := Level(limits, Seen(bucket, call), call.now);
    Some(Bucket(if level >= 1.0 then level - 1.0 else level, call.now))
  }

  /** The answers to a whole history of calls for one key. */
  function Answers(limits: Limits, bucket: Option<Bucket>, calls: seq<Call>): (answers: seq<Answer>)
    requires limits.Valid()
    ensures |answers| == |calls|
    decreases |calls|
  {
    if calls == [] then []
    else [Reply(limits, bucket, calls[0])] + Answers(limits, After(limits, bucket, calls[0]), calls[1..])
  }

  /** The server's clock does not go back, and a key is evicted only after its time-to-live. */
  predicate Admissible(limits: Limits, bucket: Option<Bucket>, calls: seq<Call>)
    requires limits.Valid()
    decreases |calls|
  {
    calls == [] ||
    (&& (bucket.Some? ==> bucket.value.ts <= calls[0].now)
     && (bucket.Some? && calls[0].evicted ==> calls[0].now - bucket.value.ts >= Ttl(limits) as real)
     && Admissible(limits, After(limits, bucket, calls[0]), calls[1..]))
  }

  predicate InBounds(limits: Limits, bucket: Option<Bucket>) {
    bucket.Some? ==> 0.0 <= bucket.value.tokens <= limits.capacity as real
  }

  // ---- Any clock ----

  /** Whatever the clock does, a bucket holds between zero and `capacity` tokens, and a denial names a positive wait. */
  lemma BoundsKept(limits: Limits, bucket: Option<Bucket>, call: Call)
    requires limits.Valid() && InBounds(limits, bucket)
    ensures InBounds(limits, After(limits, bucket, call))
    ensures var answer := Reply(limits, bucket, call);
      if answer.allowed then answer.retryAfter == 0.0 else answer.retryAfter > 0.0
  {
    var level := Level(limits, Seen(bucket, call), call.now);
    TokensKept(limits, bucket, call);
    if level < 1.0 && limits.refill > 0.0 {
      QuotientPositive(1.0 - level, limits.refill);
    }
  }

  lemma TokensKept(limits: Limits, bucket: Option<Bucket>, call: Call)
    requires limits.Valid() && InBounds(limits, bucket)
    ensures InBounds(limits, After(limits, bucket, call))
  {
    LevelInBounds(limits, Seen(bucket, call), call.now);
  }

  lemma LevelInBounds(limits: Limits, bucket: Option<Bucket>, now: real)
    requires limits.Valid() && InBounds(limits, bucket)
    ensures 0.0 <= Level(limits, bucket, now) <= limits.capacity as real
  {
    if bucket.Some? && now >= bucket.value.ts {
      ProductNonNegative(now - bucket.value.ts, limits.refill);
    }
  }

  lemma ProductNonNegative(a: real, b: real)
    requires a >= 0.0 && b >= 0.0
    ensures a * b >= 0.0
  {}

  lemma QuotientPositive(a: real, b: real)
    requires a > 0.0 && b > 0.0
    ensures a / b > 0.0
  {}

  // ---- Refill ----

  /** Refilling in two stretches is refilling in one. */
  lemma LevelSemigroup(limits: Limits, bucket: Option<Bucket>, mid: real, now: real)
    requires limits.Valid()
    requires bucket.Some? ==> bucket.value.ts <= mid
    requires mid <= now
    ensures Level(limits, Some(Bucket(Level(limits, bucket, mid), mid)), now) == Level(limits, bucket, now)
  {
    var cap := limits.capacity as real;
    ProductNonNegative(now - mid, limits.refill);
    if bucket.Some? {
      var ts := bucket.value.ts;
      assert (now - ts) * limits.refill == (mid - ts) * limits.refill + (now - mid) * limits.refill;
    }
  }

  /** Over a stretch of time a bucket gains at most what the refill rate gives. */
  lemma LevelGain(limits: Limits, bucket: Option<Bucket>, mid: real, now: real)
    requires limits.Valid()
    requires bucket.Some? ==> bucket.value.ts <= mid
    requires mid <= now
    ensures Level(limits, bucket, now)
         <= Level(limits, bucket, mid) + Credit(limits.refill, now) - Credit(limits.refill, mid)
  {
    LevelSemigroup(limits, bucket, mid, now);
    ProductNonNegative(now - mid, limits.refill);
    Stretch(limits.refill, mid, now);
  }

  /** The tokens the refill rate has handed out by a given time. */
  function Credit(refill: real, time: real): real { time * refill }

  lemma Stretch(refill: real, from: real, to: real)
    ensures Credit(refill, to) - Credit(refill, from) == (to - from) * refill
  {
    Split(to - from, from, refill);
  }

  lemma Earlier(a: real, b: real, r: real)
    requires a <= b && r >= 0.0
    ensures Credit(r, a) <= Credit(r, b)
  {
    Stretch(r, a, b);
    ProductNonNegative(b - a, r);
  }

  lemma Split(a: real, b: real, r: real)
    ensures (a + b) * r == a * r + b * r
  {}

  /** The time-to-live: an hour without refill, else the first whole second after two full refills, or a minute. */
  lemma TtlBounds(limits: Limits)
    requires limits.Valid()
    ensures limits.refill == 0.0 ==> Ttl(limits) == 3600
    ensures limits.refill > 0.0 ==> var twice := 2.0 * (limits.capacity as real / limits.refill);
      60 <= Ttl(limits) && twice < Ttl(limits) as real && (Ttl(limits) as real <= twice + 1.0 || Ttl(limits) == 60)
  {}

  /** The time-to-live outlasts a full refill, so by the time a key can vanish its bucket is full. */
  lemma TtlOutlastsRefill(limits: Limits, bucket: Option<Bucket>, now: real)
    requires limits.Valid() && limits.refill > 0.0 && InBounds(limits, bucket)
    requires bucket.Some? ==> now - bucket.value.ts >= Ttl(limits) as real
    ensures Level(limits, bucket, now) == limits.capacity as real
  {
    if bucket.Some? {
      var cap := limits.capacity as real;
      var elapsed := now - bucket.value.ts;
      var full := cap / limits.refill;
      QuotientPositive(cap, limits.refill);
      assert Ttl(limits) >= (full * 2.0).Floor + 1;
      assert elapsed > full * 2.0 > full;
      ProductNonNegative(elapsed - full, limits.refill);
      assert full * limits.refill == cap;
      assert elapsed * limits.refill == (elapsed - full) * limits.refill + full * limits.refill;
    }
  }

  /** The next call sees the same level whether or not the key has been evicted. */
  lemma EvictionUnseen(limits: Limits, bucket: Option<Bucket>, calls: seq<Call>)
    requires limits.Valid() && limits.refill > 0.0 && InBounds(limits, bucket)
    requires calls != [] && Admissible(limits, bucket, calls)
    ensures Level(limits, Seen(bucket, calls[0]), calls[0].now) == Level(limits, bucket, calls[0].now)
  {
    if calls[0].evicted {
      TtlOutlastsRefill(limits, bucket, calls[0].now);
    }
  }

  // ---- The window bound ----

  /** The allowed calls of a history whose time lies in [from, to]. */
  function AllowedWithin(calls: seq<Call>, answers: seq<Answer>, from: real, to: real): nat
    requires |calls| == |answers|
  {
    if calls == [] then 0
    else (if answers[0].allowed && from <= calls[0].now <= to then 1 else 0)
         + AllowedWithin(calls[1..], answers[1..], from, to)
  }

  /** Calls later than the window are not counted in it. */
  lemma {:induction false} NothingAfter(limits: Limits, bucket: Option<Bucket>, calls: seq<Call>, from: real, to: real)
    requires limits.Valid() && Admissible(limits, bucket, calls)
    requires bucket.Some? && bucket.value.ts > to
    ensures AllowedWithin(calls, Answers(limits, bucket, calls), from, to) == 0
    decreases |calls|
  {
    if calls != [] {
      NothingAfter(limits, After(limits, bucket, calls[0]), calls[1..], from, to);
      assert Answers(limits, bucket, calls)[1..] == Answers(limits, After(limits, bucket, calls[0]), calls[1..]);
    }
  }

  /** The head of a history is counted when it is allowed inside the window. */
  lemma CountHead(limits: Limits, bucket: Option<Bucket>, calls: seq<Call>, from: real, to: real)
    requires limits.Valid() && calls != []
    ensures AllowedWithin(calls, Answers(limits, bucket, calls), from, to)
         == (if Reply(limits, bucket, calls[0]).allowed && from <= calls[0].now <= to then 1 else 0)
            + AllowedWithin(calls[1..], Answers(limits, After(limits, bucket, calls[0]), calls[1..]), from, to)
  {
    assert Answers(limits, bucket, calls)[1..] == Answers(limits, After(limits, bucket, calls[0]), calls[1..]);
  }

  /** Starting with `level` tokens at one time, the refill brings at least `goal` tokens by a later time. */
  predicate Yields(refill: real, level: real, start: real, goal: real, to: real) {
    goal + Credit(refill, start) <= level + Credit(refill, to)
  }

  lemma YieldsOnward(refill: real, level: real, start: real, spent: real, left: real, mid: real, goal: real, to: real)
    requires Yields(refill, level, start, spent + left, mid)
    requires Yields(refill, left, mid, goal, to)
    ensures Yields(refill, level, start, spent + goal, to)
  {
    hide Credit;
  }

  lemma YieldsNothing(refill: real, level: real, start: real, to: real)
    requires level >= 0.0 && refill >= 0.0 && start <= to
    ensures Yields(refill, level, start, 0.0, to)
  {
    hide Credit;
    Earlier(start, to, refill);
  }

  lemma YieldsFromEarlier(refill: real, level: real, cap: real, from: real, start: real, goal: real, to: real)
    requires Yields(refill, level, start, goal, to)
    requires level <= cap && refill >= 0.0 && from <= start
    ensures Yields(refill, cap, from, goal, to)
  {
    hide Credit;
    Earlier(from, start, refill);
  }

  lemma YieldsInAll(refill: real, level: real, start: real, goal: real, to: real)
    requires Yields(refill, level, start, goal, to)
    ensures goal <= level + (to - start) * refill
  {
    hide Credit;
    Stretch(refill, start, to);
  }

  /** A call spends a token of the level it sees, and the level it sees has grown at most by the refill. */
  lemma PaidCall(limits: Limits, bucket: Option<Bucket>, call: Call, start: real)
    requires limits.Valid()
    requires Level(limits, Seen(bucket, call), call.now) == Level(limits, bucket, call.now)
    requires bucket.Some? ==> bucket.value.ts <= start
    requires start <= call.now
    ensures Yields(limits.refill, Level(limits, bucket, start), start,
                   Cost(Reply(limits, bucket, call)) as real + Level(limits, After(limits, bucket, call), call.now),
                   call.now)
  {
    hide Credit;
    LevelGain(limits, bucket, start, call.now);
  }

  function Cost(answer: Answer): int { if answer.allowed then 1 else 0 }

  /** From a time inside the window on, what is allowed is paid for by the level and the refill. */
  lemma {:induction false} PaidFromLevel(limits: Limits, bucket: Option<Bucket>, calls: seq<Call>,
                                         from: real, start: real, to: real)
    requires limits.Valid() && InBounds(limits, bucket) && Admissible(limits, bucket, calls)
    requires limits.refill > 0.0 || forall c | c in calls :: !c.evicted
    requires bucket.Some? ==> bucket.value.ts <= start
    requires from <= start <= to
    requires calls != [] ==> start <= calls[0].now
    ensures Yields(limits.refill, Level(limits, bucket, start), start,
                   AllowedWithin(calls, Answers(limits, bucket, calls), from, to) as real, to)
    decreases |calls|
  {
    hide Level, Yields;
    if calls == [] || calls[0].now > to {
      PaidTrivially(limits, bucket, calls, from, start, to);
    } else {
      var call := calls[0];
      var next := After(limits, bucket, call);
      if call.evicted {
        EvictionUnseen(limits, bucket, calls);
      }
      PaidCall(limits, bucket, call, start);
      TokensKept(limits, bucket, call);
      PaidFromLevel(limits, next, calls[1..], from, call.now, to);
      CountHead(limits, bucket, calls, from, to);
      YieldsOnward(limits.refill, Level(limits, bucket, start), start, Cost(Reply(limits, bucket, call)) as real,
                   Level(limits, next, call.now), call.now,
                   AllowedWithin(calls[1..], Answers(limits, next, calls[1..]), from, to) as real, to);
    }
  }

  lemma PaidTrivially(limits: Limits, bucket: Option<Bucket>, calls: seq<Call>, from: real, start: real, to: real)
    requires limits.Valid() && InBounds(limits, bucket) && Admissible(limits, bucket, calls) && start <= to
    requires calls == [] || calls[0].now > to
    ensures AllowedWithin(calls, Answers(limits, bucket, calls), from, to) == 0
    ensures Yields(limits.refill, Level(limits, bucket, start), start, 0.0, to)
  {
    LevelInBounds(limits, bucket, start);
    YieldsNothing(limits.refill, Level(limits, bucket, start), start, to);
    if calls != [] {
      CountHead(limits, bucket, calls, from, to);
      NothingAfter(limits, After(limits, bucket, calls[0]), calls[1..], from, to);
    }
  }

  lemma {:induction false} WindowYields(limits: Limits, bucket: Option<Bucket>, calls: seq<Call>, from: real, to: real)
    requires limits.Valid() && limits.refill > 0.0 && InBounds(limits, bucket) && Admissible(limits, bucket, calls)
    requires from <= to
    ensures Yields(limits.refill, limits.capacity as real, from,
                   AllowedWithin(calls, Answers(limits, bucket, calls), from, to) as real, to)
    decreases |calls|
  {
    hide Level, Yields;
    var cap := limits.capacity as real;
    if calls == [] || calls[0].now > to {
      PaidTrivially(limits, bucket, calls, from, from, to);
      YieldsNothing(limits.refill, cap, from, to);
    } else if calls[0].now < from {
      CountHead(limits, bucket, calls, from, to);
      TokensKept(limits, bucket, calls[0]);
      WindowYields(limits, After(limits, bucket, calls[0]), calls[1..], from, to);
    } else {
      var now := calls[0].now;
      LevelInBounds(limits, bucket, now);
      PaidFromLevel(limits, bucket, calls, from, now, to);
      YieldsFromEarlier(limits.refill, Level(limits, bucket, now), cap, from, now,
                        AllowedWithin(calls, Answers(limits, bucket, calls), from, to) as real, to);
    }
  }

  /**
   The rate bound: with a refill rate and a clock that does not go back, the calls allowed for one key in any
   window number at most capacity + refill * length, across every expiry and reseeding of the key.
   */
  lemma WindowBound(limits: Limits, bucket: Option<Bucket>, calls: seq<Call>, from: real, to: real)
    requires limits.Valid() && limits.refill > 0.0 && InBounds(limits, bucket) && Admissible(limits, bucket, calls)
    requires from <= to
    ensures AllowedWithin(calls, Answers(limits, bucket, calls), from, to) as real
         <= limits.capacity as real + (to - from) * limits.refill
  {
    hide Credit, Level, Yields;
    WindowYields(limits, bucket, calls, from, to);
    YieldsInAll(limits.refill, limits.capacity as real, from,
                AllowedWithin(calls, Answers(limits, bucket, calls), from, to) as real, to);
  }

  lemma NoCredit(refill: real, time: real)
    requires refill == 0.0
    ensures Credit(refill, time) == 0.0
  {}

  /** Without refill, a key that is not evicted allows a burst of at most `capacity`, over all time. */
  lemma BurstThenNothing(limits: Limits, bucket: Option<Bucket>, calls: seq<Call>, to: real)
    requires limits.Valid() && limits.refill == 0.0 && InBounds(limits, bucket) && Admissible(limits, bucket, calls)
    requires forall c | c in calls :: !c.evicted
    requires calls != [] && calls[0].now <= to
    ensures AllowedWithin(calls, Answers(limits, bucket, calls), calls[0].now, to) <= limits.capacity
  {
    hide Level, Credit, Answers, AllowedWithin;
    NoCredit(limits.refill, calls[0].now);
    NoCredit(limits.refill, to);
    PaidFromLevel(limits, bucket, calls, calls[0].now, calls[0].now, to);
    LevelInBounds(limits, bucket, calls[0].now);
  }

  /** At one instant a bucket of `tokens` tokens allows that many calls. */
  lemma {:induction false} SameInstant(limits: Limits, tokens: int, now: real, calls: seq<Call>, i: nat)
    requires limits.Valid() && 0 <= tokens <= limits.capacity && i < |calls|
    requires forall k | 0 <= k < |calls| :: calls[k] == Call(now, false)
    ensures Answers(limits, Some(Bucket(tokens as real, now)), calls)[i].allowed <==> i < tokens
    decreases i
  {
    assert calls[0] == Call(now, false);
    Still(limits, tokens as real, now);
    if i > 0 {
      SameInstant(limits, if tokens >= 1 then tokens - 1 else tokens, now, calls[1..], i - 1);
    }
  }

  lemma Still(limits: Limits, tokens: real, now: real)
    requires tokens <= limits.capacity as real
    ensures Level(limits, Some(Bucket(tokens, now)), now) == tokens
  {}

  /** A user not seen before gets a burst of exactly `capacity` calls. */
  lemma {:induction false} BurstIsCapacity(limits: Limits, now: real, calls: seq<Call>, i: nat)
    requires limits.Valid() && i < |calls|
    requires forall k | 0 <= k < |calls| :: calls[k] == Call(now, false)
    ensures Answers(limits, None, calls)[i].allowed <==> i < limits.capacity
  {
    assert calls[0] == Call(now, false);
    if i > 0 {
      SameInstant(limits, limits.capacity - 1, now, calls[1..], i - 1);
    }
  }

  // ---- Expiry is unobservable ----

  function NeverEvicted(calls: seq<Call>): seq<Call> {
    if calls == [] then [] else [calls[0].(evicted := false)] + NeverEvicted(calls[1..])
  }

  /** The expiring bucket answers every history exactly as one that never expires. */
  lemma {:induction false} ExpiryUnobservable(limits: Limits, bucket: Option<Bucket>, calls: seq<Call>)
    requires limits.Valid() && limits.refill > 0.0 && InBounds(limits, bucket) && Admissible(limits, bucket, calls)
    ensures Answers(limits, bucket, calls) == Answers(limits, bucket, NeverEvicted(calls))
    ensures Admissible(limits, bucket, NeverEvicted(calls))
    decreases |calls|
  {
    if calls != [] {
      EvictionUnseen(limits, bucket, calls);
      BoundsKept(limits, bucket, calls[0]);
      assert NeverEvicted(calls)[1..] == NeverEvicted(calls[1..]);
      ExpiryUnobservable(limits, After(limits, bucket, calls[0]), calls[1..]);
    }
  }

  // ---- Denials are unobservable ----

  /** Two buckets that are worth the same from `now` on. */
  ghost predicate SameFrom(limits: Limits, a: Option<Bucket>, b: Option<Bucket>, now: real) {
    forall t: real :: now <= t ==> Level(limits, a, t) == Level(limits, b, t)
  }

  /** Keep the calls at the unmarked positions. */
  function Keep<T>(s: seq<T>, drop: seq<bool>): seq<T>
    requires |s| == |drop|
  {
    if s == [] then []
    else if drop[0] then Keep(s[1..], drop[1..])
    else [s[0]] + Keep(s[1..], drop[1..])
  }

  predicate Ascending(calls: seq<Call>, from: real) {
    calls == [] || (from <= calls[0].now && !calls[0].evicted && Ascending(calls[1..], calls[0].now))
  }

  /** Buckets worth the same give the same answers. */
  lemma {:induction false} DroppingDenials(limits: Limits, a: Option<Bucket>, b: Option<Bucket>,
                                           calls: seq<Call>, drop: seq<bool>, now: real)
    requires limits.Valid() && |drop| == |calls| && Ascending(calls, now)
    requires SameFrom(limits, a, b, now)
    requires a.Some? ==> a.value.ts <= now
    requires forall i | 0 <= i < |calls| && drop[i] :: !Answers(limits, a, calls)[i].allowed
    ensures Answers(limits, b, Keep(calls, drop)) == Keep(Answers(limits, a, calls), drop)
    decreases |calls|
  {
    if calls != [] {
      var call := calls[0];
      var a' := After(limits, a, call);
      assert Answers(limits, a, calls)[1..] == Answers(limits, a', calls[1..]);
      assert forall i | 0 <= i < |calls[1..]| && drop[1..][i] :: !Answers(limits, a', calls[1..])[i].allowed by {
        forall i | 0 <= i < |calls[1..]| && drop[1..][i]
          ensures !Answers(limits, a', calls[1..])[i].allowed
        {
          assert drop[i + 1];
          assert Answers(limits, a, calls)[i + 1] == Answers(limits, a, calls)[1..][i];
        }
      }
      if drop[0] {
        assert !Answers(limits, a, calls)[0].allowed;
        forall t: real | call.now <= t
          ensures Level(limits, a', t) == Level(limits, b, t)
        {
          LevelSemigroup(limits, a, call.now, t);
        }
        DroppingDenials(limits, a', b, calls[1..], drop[1..], call.now);
      } else {
        assert Level(limits, a, call.now) == Level(limits, b, call.now);
        assert a' == After(limits, b, call);
        DroppingDenials(limits, a', a', calls[1..], drop[1..], call.now);
        assert Keep(calls, drop)[1..] == Keep(calls[1..], drop[1..]);
      }
    }
  }

  lemma {:induction false} NeverEvictedAscends(limits: Limits, bucket: Option<Bucket>, calls: seq<Call>, from: real)
    requires limits.Valid() && Admissible(limits, bucket, calls)
    requires bucket.Some? ==> from <= bucket.value.ts
    requires calls != [] ==> from <= calls[0].now
    ensures Ascending(NeverEvicted(calls), from)
    decreases |calls|
  {
    if calls != [] {
      assert NeverEvicted(calls)[1..] == NeverEvicted(calls[1..]);
      NeverEvictedAscends(limits, After(limits, bucket, calls[0]), calls[1..], calls[0].now);
    }
  }

  lemma {:induction false} KeepNeverEvicted(calls: seq<Call>, drop: seq<bool>)
    requires |calls| == |drop|
    ensures |NeverEvicted(calls)| == |calls|
    ensures Keep(NeverEvicted(calls), drop) == NeverEvicted(Keep(calls, drop))
  {
    if calls != [] {
      assert NeverEvicted(calls)[1..] == NeverEvicted(calls[1..]);
      KeepNeverEvicted(calls[1..], drop[1..]);
      if !drop[0] {
        assert Keep(calls, drop)[1..] == Keep(calls[1..], drop[1..]);
      }
    }
  }

  /**
   Denied calls leave no trace: erasing any of them from a history changes no other answer, even if
   both histories are subject to their own evictions.
   */
  lemma {:induction false} DenialsUnobservable(limits: Limits, bucket: Option<Bucket>, calls: seq<Call>,
                                               drop: seq<bool>, rest: seq<Call>)
    requires limits.Valid() && limits.refill > 0.0 && InBounds(limits, bucket)
    requires |drop| == |calls| && Admissible(limits, bucket, calls)
    requires forall i | 0 <= i < |calls| && drop[i] :: !Answers(limits, bucket, calls)[i].allowed
    requires Admissible(limits, bucket, rest) && NeverEvicted(rest) == NeverEvicted(Keep(calls, drop))
    ensures Answers(limits, bucket, rest) == Keep(Answers(limits, bucket, calls), drop)
  {
    if calls == [] {
      ExpiryUnobservable(limits, bucket, rest);
    } else {
      ExpiryUnobservable(limits, bucket, calls);
      ExpiryUnobservable(limits, bucket, rest);
      KeepNeverEvicted(calls, drop);
      var now := if bucket.Some? then bucket.value.ts else calls[0].now;
      NeverEvictedAscends(limits, bucket, calls, now);
      DroppingDenials(limits, bucket, bucket, NeverEvicted(calls), drop, now);
    }
  }

  // ---- retry_after is exact ----

  /** A bucket holding less than a token reaches one exactly after the time a denial names. */
  lemma WaitIsExact(limits: Limits, bucket: Bucket, t: real)
    requires limits.Valid() && limits.refill > 0.0 && bucket.tokens < 1.0 && bucket.ts <= t
    ensures Level(limits, Some(bucket), t) >= 1.0 <==> t >= bucket.ts + (1.0 - bucket.tokens) / limits.refill
  {
    WaitDivides(t - bucket.ts, 1.0 - bucket.tokens, limits.refill);
  }

  lemma WaitDivides(elapsed: real, missing: real, refill: real)
    requires refill > 0.0
    ensures elapsed * refill >= missing <==> elapsed >= missing / refill
  {
    var wait := missing / refill;
    assert wait * refill == missing;
    Split(elapsed - wait, wait, refill);
    if elapsed >= wait {
      ProductNonNegative(elapsed - wait, refill);
    } else {
      ProductPositive(wait - elapsed, refill);
      Split(wait - elapsed, elapsed, refill);
    }
  }

  lemma ProductPositive(a: real, b: real)
    requires a > 0.0 && b > 0.0
    ensures a * b > 0.0
  {}

  /**
   A denial's retry_after is exact: of the calls that follow it, those before the named time are all denied,
   and the first at or after that time is allowed.
   */
  lemma {:induction false} RetryAfterExact(limits: Limits, bucket: Option<Bucket>, call: Call, later: seq<Call>, k: nat)
    requires limits.Valid() && limits.refill > 0.0 && InBounds(limits, bucket)
    requires Admissible(limits, bucket, [call] + later)
    requires !Reply(limits, bucket, call).allowed
    requires k < |later|
    requires var due := call.now + Reply(limits, bucket, call).retryAfter; forall i | 0 <= i < k :: later[i].now < due
    ensures var due := call.now + Reply(limits, bucket, call).retryAfter;
      Answers(limits, After(limits, bucket, call), later)[k].allowed <==> later[k].now >= due
    decreases k
  {
    var next := After(limits, bucket, call);
    assert ([call] + later)[1..] == later;
    BoundsKept(limits, bucket, call);
    EvictionUnseen(limits, next, later);
    WaitIsExact(limits, next.value, later[0].now);
    if k > 0 {
      assert later == [later[0]] + later[1..];
      var due := call.now + Reply(limits, bucket, call).retryAfter;
      assert !Reply(limits, next, later[0]).allowed;
      SameDue(limits, next.value, later[0].now);
      assert Answers(limits, next, later)[k] == Answers(limits, After(limits, next, later[0]), later[1..])[k - 1];
      forall i | 0 <= i < k - 1
        ensures later[1..][i].now < due
      {
        assert later[1..][i] == later[i + 1];
      }
      RetryAfterExact(limits, next, later[0], later[1..], k - 1);
    }
  }

  /** A denied call does not move the time at which the next token is due. */
  lemma SameDue(limits: Limits, bucket: Bucket, now: real)
    requires limits.Valid() && limits.refill > 0.0 && bucket.ts <= now
    requires Level(limits, Some(bucket), now) < 1.0
    ensures now + (1.0 - Level(limits, Some(bucket), now)) / limits.refill
         == bucket.ts + (1.0 - bucket.tokens) / limits.refill
  {
    var level := Level(limits, Some(bucket), now);
    assert level == bucket.tokens + (now - bucket.ts) * limits.refill;
    assert (1.0 - level) / limits.refill
        == (1.0 - bucket.tokens) / limits.refill - (now - bucket.ts) * limits.refill / limits.refill;
  }

  // ---- The limiter and its store ----

  const KEY_PREFIX := "vp:rl:"

  predicate IsControl(c: char) { c as int <= 0x1f || c as int == 0x7f }

  /** The user id without newlines and control characters, in the limiter's namespace. */
  function Key(userId: string): (key: string)
    ensures KEY_PREFIX <= key
    ensures forall c | c in key :: !IsControl(c)
  {
    KEY_PREFIX + Printable(userId)
  }

  function Printable(s: string): (r: string)
    ensures forall c | c in r :: !IsControl(c)
  {
    if s == [] then []
    else if IsControl(s[0]) then Printable(s[1..])
    else [s[0]] + Printable(s[1..])
  }

  /** The number of characters of a user id that are kept. */
  function Kept(s: string): nat {
    if s == [] then 0 else (if IsControl(s[0]) then 0 else 1) + Kept(s[1..])
  }

  /** Every printable character of the user id is in the key, in order, and nothing else follows the prefix. */
  lemma {:induction false} KeyKeeps(userId: string, i: nat)
    requires i < |userId| && !IsControl(userId[i])
    ensures "vp:rl:" <= Key(userId) && |Key(userId)| == 6 + Kept(userId) && Kept(userId[..i]) < Kept(userId)
    ensures Key(userId)[6 + Kept(userId[..i])] == userId[i]
  {
    PrintableAt(userId, i);
  }

  lemma {:induction false} PrintableAt(s: string, i: nat)
    requires i < |s| && !IsControl(s[i])
    ensures |Printable(s)| == Kept(s) && Kept(s[..i]) < Kept(s)
    ensures Printable(s)[Kept(s[..i])] == s[i]
  {
    hide IsControl;
    if i > 0 {
      assert s[..i][1..] == s[1..][..i - 1];
      PrintableAt(s[1..], i - 1);
    } else {
      PrintableLength(s[1..]);
    }
  }

  lemma {:induction false} PrintableLength(s: string)
    ensures |Printable(s)| == Kept(s)
  {
    if s != [] {
      PrintableLength(s[1..]);
    }
  }

  /** The Redis server, as far as the limiter's keys go. */
  class Store {
    var buckets: map<string, Bucket>
    var deadlines: map<string, real>

    ghost predicate Valid()
      reads this
    {
      buckets.Keys == deadlines.Keys
    }

    ghost function At(key: string): Option<Bucket>
      reads this
    {
      if key in buckets then Some(buckets[key]) else None
    }

    constructor ()
      ensures Valid() && buckets == map[]
    {
      buckets, deadlines := map[], map[];
    }

    /** Keys whose deadline has passed may be dropped, at any time. */
    method Evict(now: real)
      requires Valid()
      modifies this
      ensures Valid() && buckets.Keys <= old(buckets.Keys)
      ensures forall key | key in buckets :: buckets[key] == old(buckets)[key] && deadlines[key] == old(deadlines)[key]
      ensures forall key | key in old(buckets.Keys) && key !in buckets :: old(deadlines)[key] <= now
    {
      var gone: set<string> := *;
      buckets := map key | key in buckets && !(key in gone && deadlines[key] <= now) :: buckets[key];
      deadlines := map key | key in buckets :: deadlines[key];
    }

    /** The script: refill, cap, consume, store and set the expiry, in one step. */
    method EvalTokenBucket(key: string, limits: Limits, requested: real, ttl: int, now: real)
      returns (allowed: int, retryAfter: real)
      requires Valid() && limits.Valid() && requested == 1.0 && ttl == Ttl(limits)
      modifies this
      ensures Valid()
      ensures Answer(allowed == 1, retryAfter) == Reply(limits, old(At(key)), Call(now, false))
      ensures allowed == 0 || allowed == 1
      ensures buckets == old(buckets)[key := After(limits, old(At(key)), Call(now, false)).value]
      ensures deadlines == old(deadlines)[key := now + ttl as real]
    {
      var capacity, refill := limits.capacity as real, limits.refill;
      var tokens, ts := capacity, now;
      if key in buckets {
        tokens, ts := buckets[key].tokens, buckets[key].ts;
      }
      var elapsed := now - ts;
      if elapsed < 0.0 {
        elapsed := 0.0;
      }
      tokens := tokens + elapsed * refill;
      if tokens > capacity {
        tokens := capacity;
      }
      ghost var level := Level(limits, At(key), now);
      assert tokens == level;
      allowed, retryAfter := 0, 0.0;
      if tokens >= requested {
        tokens := tokens - requested;
        allowed := 1;
      } else if refill > 0.0 {
        retryAfter := (requested - tokens) / refill;
      } else {
        retryAfter := ttl as real;
      }
      assert Some(Bucket(tokens, now)) == After(limits, At(key), Call(now, false));
      buckets := buckets[key := Bucket(tokens, now)];
      deadlines := deadlines[key := now + ttl as real];
    }
  }

  /** What may go wrong with a call of the script: nothing, an error before it ran, or one after. */
  datatype Fault = Sound | ErrorBefore | ErrorAfter

  /** A bucket admits a call exactly when what it holds and what has refilled since make a token. */
  lemma HasToken(limits: Limits, b: Bucket, now: real)
    requires limits.Valid()
    ensures Reply(limits, Some(b), Call(now, false)).allowed
       <==> b.tokens + (if now < b.ts then 0.0 else now - b.ts) * limits.refill >= 1.0
    ensures Reply(limits, None, Call(now, false)).allowed
  {}

  /** A call works on what the eviction left. */
  lemma OnWhatIsLeft(limits: Limits, bucket: Option<Bucket>, call: Call)
    requires limits.Valid()
    ensures Reply(limits, bucket, call) == Reply(limits, Seen(bucket, call), Call(call.now, false))
    ensures After(limits, bucket, call) == After(limits, Seen(bucket, call), Call(call.now, false))
    ensures After(limits, bucket, call).Some? && After(limits, bucket, call).value.ts == call.now
  {}

  class TokenBucketLimiter {
    const limits: Limits
    const ttl: int

    ghost predicate Valid()
    {
      limits.Valid() && ttl == Ttl(limits)
    }

    /** What every call keeps: token counts in bounds, and each key's expiry one time-to-live after its last call. */
    ghost predicate Keeps(redis: Store)
      reads redis
    {
      && redis.Valid()
      && forall key | key in redis.buckets ::
           InBounds(limits, Some(redis.buckets[key])) && redis.deadlines[key] == redis.buckets[key].ts + ttl as real
    }

    constructor (capacity: int, refill: real)
      ensures Valid() && limits == Coerce(capacity, refill)
    {
      limits := Coerce(capacity, refill);
      ttl := Ttl(Coerce(capacity, refill));
    }

    /**
     Consume one token of the user's bucket. `redis` is null when no server is configured, and `fault` says how the
     call of the script goes. Without a sound call the limiter lets the caller through. With one, a user not seen before
     is let through, and a user whose key is still alive exactly when the bucket makes a token.
     */
    method Allow(redis: Store?, userId: string, now: real, fault: Fault) returns (allowed: bool, retryAfter: real)
      requires Valid()
      requires redis != null ==> Keeps(redis)
      modifies redis
      ensures redis != null ==> Keeps(redis)
      ensures redis == null || !fault.Sound? ==> allowed && retryAfter == 0.0
      ensures redis != null ==>
        exists evicted: bool ::
          var call, bucket := Call(now, evicted), old(redis.At(Key(userId)));
          && (evicted ==> bucket.Some? && now - bucket.value.ts >= Ttl(limits) as real)
          && (fault.Sound? ==> Answer(allowed, retryAfter) == Reply(limits, bucket, call))
          && redis.At(Key(userId)) == if fault.ErrorBefore? then Seen(bucket, call) else After(limits, bucket, call)
      ensures redis != null && fault.Sound? ==>
        match old(redis.At(Key(userId)))
        case None => allowed
        case Some(b) => now - b.ts < Ttl(limits) as real ==>
          (allowed <==> b.tokens + (if now < b.ts then 0.0 else now - b.ts) * limits.refill >= 1.0)
      ensures redis != null ==> forall key | key in redis.buckets && key != Key(userId) ::
        key in old(redis.buckets) && redis.buckets[key] == old(redis.buckets)[key]
      ensures redis != null ==> forall key | key in old(redis.buckets) && key !in redis.buckets ::
        now - old(redis.buckets)[key].ts >= Ttl(limits) as real
    {
      hide Level, Ttl, Reply, After, InBounds;
      if redis == null {
        return true, 0.0;
      }
      var key := Key(userId);
      ghost var before := redis.At(key);
      Expire(redis, now);
      ghost var call := Call(now, before.Some? && redis.At(key).None?);
      assert Seen(before, call) == redis.At(key);
      if fault.ErrorBefore? {
        return true, 0.0;
      }
      HasToken(limits, if before.Some? then before.value else Bucket(0.0, now), now);
      OnWhatIsLeft(limits, before, call);
      allowed, retryAfter := Ask(redis, key, now);
      if fault.ErrorAfter? {
        return true, 0.0;
      }
    }

    /** Keys past their time-to-live may be gone by the time of a call. */
    method Expire(redis: Store, now: real)
      requires Valid() && Keeps(redis)
      modifies redis
      ensures Keeps(redis) && redis.buckets.Keys <= old(redis.buckets.Keys)
      ensures forall key | key in redis.buckets :: redis.buckets[key] == old(redis.buckets)[key]
      ensures forall key | key in old(redis.buckets) && key !in redis.buckets ::
        now - old(redis.buckets)[key].ts >= Ttl(limits) as real
    {
      hide InBounds, Ttl;
      redis.Evict(now);
    }

    /** Run the script and read its answer. */
    method Ask(redis: Store, key: string, now: real) returns (allowed: bool, retryAfter: real)
      requires Valid() && Keeps(redis)
      modifies redis
      ensures Keeps(redis)
      ensures Answer(allowed, retryAfter) == Reply(limits, old(redis.At(key)), Call(now, false))
      ensures After(limits, old(redis.At(key)), Call(now, false)).Some?
      ensures redis.buckets == old(redis.buckets)[key := After(limits, old(redis.At(key)), Call(now, false)).value]
    {
      hide Level, Ttl, Reply, After;
      ghost var bucket := redis.At(key);
      TokensKept(limits, bucket, Call(now, false));
      BoundsKept(limits, bucket, Call(now, false));
      OnWhatIsLeft(limits, bucket, Call(now, false));
      var allowedRaw, retryRaw := redis.EvalTokenBucket(key, limits, 1.0, ttl, now);
      if allowedRaw != 0 {
        return true, 0.0;
      }
      return false, if retryRaw < 0.0 then 0.0 else retryRaw;
    }
  }
}
