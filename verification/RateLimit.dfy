/**
 The persisted token bucket and the windowed counters (src/agent/limits.py).
 Tokens and times are reals; floating-point rounding is not modelled.
 */
module RateLimit {
  import opened Wrappers

  datatype Bucket = Bucket(tokens: real, at: real)

  datatype Quota = Quota(rate: real, burst: real)

  predicate Sane(q: Quota) {
    0.0 <= q.rate && 0.0 <= q.burst
  }

  function MinR(x: real, y: real): real { if x < y then x else y }

  function MaxR(x: real, y: real): real { if x < y then y else x }

  /** What flows in between two times. */
  function Gain(q: Quota, from: real, to: real): real {
    MaxR(0.0, to - from) * q.rate
  }

  /** Tokens at `now`: a bucket nobody has used is full, a clock that went back refills nothing. */
  function Level(q: Quota, b: Option<Bucket>, now: real): real {
    match b
    case None => q.burst
    case Some(x) => MinR(q.burst, x.tokens + Gain(q, x.at, now))
  }

  /** One call: a refusal writes nothing. */
  function TakeOne(q: Quota, b: Option<Bucket>, now: real, cost: real): (Option<Bucket>, bool) {
    if Level(q, b, now) < cost then (b, false)
    else (Some(Bucket(Level(q, b, now) - cost, now)), true)
  }

  class Limiter {
    const quota: Quota
    var buckets: map<string, Bucket>
    var counters: map<(string, string), real>

    constructor (quota: Quota)
      ensures this.quota == quota && buckets == map[] && counters == map[]
    {
      this.quota := quota;
      buckets, counters := map[], map[];
    }

    function At(key: string): Option<Bucket>
      reads this
    {
      if key in buckets then Some(buckets[key]) else None
    }

    method Take(key: string, now: real, cost: real) returns (admitted: bool)
      modifies this
      ensures (At(key), admitted) == TakeOne(quota, old(At(key)), now, cost)
      ensures forall k :: k != key ==> At(k) == old(At(k))
      ensures counters == old(counters)
    {
      var tokens;
      if key !in buckets {
        tokens := quota.burst;
      } else {
        var elapsed := now - buckets[key].at;
        tokens := MinR(quota.burst, buckets[key].tokens + MaxR(0.0, elapsed) * quota.rate);
      }
      if tokens < cost {
        return false;
      }
      buckets := buckets[key := Bucket(tokens - cost, now)];
      return true;
    }

    /** Two buckets, both of which must have room; the first is charged even if the second refuses. */
    method TakeBoth(agent: string, mandate: string, now: real) returns (admitted: bool)
      requires agent != mandate
      modifies this
      ensures var (a, first) := TakeOne(quota, old(At(agent)), now, 1.0);
        && At(agent) == a
        && (mandate == "" ==> admitted == first)
        && (mandate != "" && first ==>
              (At(mandate), admitted) == TakeOne(quota, old(At(mandate)), now, 1.0))
        && (!first ==> !admitted && At(mandate) == old(At(mandate)))
      ensures forall k :: k != agent && k != mandate ==> At(k) == old(At(k))
    {
      admitted := Take(agent, now, 1.0);
      if admitted && mandate != "" {
        admitted := Take(mandate, now, 1.0);
      }
    }

    method Bump(key: string, window: string, cap: real, amount: real) returns (admitted: bool)
      modifies this
      ensures buckets == old(buckets)
      ensures var used := Counted(old(counters), key, window);
        && (admitted <==> used + amount <= cap)
        && counters == if admitted then old(counters)[(key, window) := used + amount] else old(counters)
    {
      var value := (if (key, window) in counters then counters[(key, window)] else 0.0) + amount;
      if value > cap {
        return false;
      }
      counters := counters[(key, window) := value];
      return true;
    }
  }

  function Counted(counters: map<(string, string), real>, key: string, window: string): real {
    if (key, window) in counters then counters[(key, window)] else 0.0
  }

  // ------------------------------------------------------------ whole runs

  datatype Call = Call(now: real, cost: real)

  ghost predicate Ordered(calls: seq<Call>) {
    && (forall i :: 0 <= i < |calls| ==> 0.0 <= calls[i].cost)
    && (forall i, j :: 0 <= i < j < |calls| ==> calls[i].now <= calls[j].now)
  }

  /** The stored bucket is within bounds and not ahead of the calls to come. */
  ghost predicate Behind(q: Quota, b: Option<Bucket>, calls: seq<Call>) {
    b.Some? ==>
      && 0.0 <= b.value.tokens <= q.burst
      && forall i :: 0 <= i < |calls| ==> b.value.at <= calls[i].now
  }

  /** Cost admitted at times in [s, t]. */
  function Admitted(q: Quota, b: Option<Bucket>, calls: seq<Call>, s: real, t: real): real
    decreases |calls|
  {
    if calls == [] then 0.0
    else
      var (b', ok) := TakeOne(q, b, calls[0].now, calls[0].cost);
      (if ok && s <= calls[0].now <= t then calls[0].cost else 0.0) + Admitted(q, b', calls[1..], s, t)
  }

  function After(q: Quota, b: Option<Bucket>, calls: seq<Call>): Option<Bucket>
    decreases |calls|
  {
    if calls == [] then b
    else After(q, TakeOne(q, b, calls[0].now, calls[0].cost).0, calls[1..])
  }

  /** Time the clock goes back with this one call, if it is admitted. */
  function Back(q: Quota, b: Option<Bucket>, c: Call): real {
    if TakeOne(q, b, c.now, c.cost).1 && b.Some? then MaxR(0.0, b.value.at - c.now) else 0.0
  }

  /** Time the clock went back between admitted calls, added up. */
  function Rewound(q: Quota, b: Option<Bucket>, calls: seq<Call>): real
    decreases |calls|
  {
    if calls == [] then 0.0
    else
      Back(q, b, calls[0]) + Rewound(q, TakeOne(q, b, calls[0].now, calls[0].cost).0, calls[1..])
  }

  /** What flows in again over that time. */
  function Backflow(q: Quota, b: Option<Bucket>, calls: seq<Call>): real
    decreases |calls|
  {
    if calls == [] then 0.0
    else
      var (b', ok) := TakeOne(q, b, calls[0].now, calls[0].cost);
      (if ok && b.Some? then Gain(q, calls[0].now, b.value.at) else 0.0) + Backflow(q, b', calls[1..])
  }

  function Scaled(x: real, rate: real): real {
    x * rate
  }

  lemma ScaledAdds(x: real, y: real, rate: real)
    ensures Scaled(x + y, rate) == Scaled(x, rate) + Scaled(y, rate)
  {
  }

  lemma BackflowStep(q: Quota, b: Option<Bucket>, calls: seq<Call>)
    requires calls != []
    ensures var b' := TakeOne(q, b, calls[0].now, calls[0].cost).0;
      && Rewound(q, b, calls) == Back(q, b, calls[0]) + Rewound(q, b', calls[1..])
      && Backflow(q, b, calls) == Scaled(Back(q, b, calls[0]), q.rate) + Backflow(q, b', calls[1..])
  {
  }

  lemma {:induction false} BackflowIsRewound(q: Quota, b: Option<Bucket>, calls: seq<Call>)
    ensures Backflow(q, b, calls) == Scaled(Rewound(q, b, calls), q.rate)
    decreases |calls|
  {
    if calls != [] {
      BackflowStep(q, b, calls);
      var b' := TakeOne(q, b, calls[0].now, calls[0].cost).0;
      BackflowIsRewound(q, b', calls[1..]);
      ScaledAdds(Back(q, b, calls[0]), Rewound(q, b', calls[1..]), q.rate);
    }
  }

  /**
   What the bucket can still give out in [s, t] while the clock does not go
   back.  A bucket stamped after `t` can give out only what a clock set back
   to `t` would find beyond what flows in again.
   */
  function Potential(q: Quota, b: Option<Bucket>, s: real, t: real): real {
    if b.None? || b.value.at <= s then Level(q, b, s) + Gain(q, s, t)
    else if b.value.at <= t then b.value.tokens + Gain(q, b.value.at, t)
    else MaxR(0.0, b.value.tokens - Gain(q, t, b.value.at))
  }

  lemma Flow(q: Quota, a: real, b: real, c: real)
    requires Sane(q) && a <= b <= c
    ensures Gain(q, a, c) == Gain(q, a, b) + Gain(q, b, c)
    ensures 0.0 <= Gain(q, a, b) && 0.0 <= Gain(q, b, c)
    ensures Gain(q, a, a) == 0.0
  {
    assert (c - a) * q.rate == (b - a) * q.rate + (c - b) * q.rate;
  }

  lemma TakeKeepsBehind(q: Quota, b: Option<Bucket>, calls: seq<Call>)
    requires Sane(q) && Ordered(calls) && calls != [] && Behind(q, b, calls)
    ensures Behind(q, TakeOne(q, b, calls[0].now, calls[0].cost).0, calls[1..])
    ensures Ordered(calls[1..])
  {
    if b.Some? {
      Flow(q, b.value.at, calls[0].now, calls[0].now);
    }
  }

  ghost predicate InBounds(q: Quota, b: Option<Bucket>) {
    b.Some? ==> 0.0 <= b.value.tokens <= q.burst
  }

  /** Giving out `cost` at `now` uses up at least as much potential, once what a rewound clock adds is paid for. */
  lemma TakeSpendsPotential(q: Quota, b: Option<Bucket>, now: real, cost: real, s: real, t: real)
    requires Sane(q) && s <= t && 0.0 <= cost <= Level(q, b, now) && InBounds(q, b)
    ensures (if s <= now <= t then cost else 0.0) + Potential(q, Some(Bucket(Level(q, b, now) - cost, now)), s, t)
         <= Potential(q, b, s, t) + (if b.Some? then Gain(q, now, b.value.at) else 0.0)
  {
    PotentialIsNonNegative(q, b, s, t);
    if b.None? {
      FreshSpends(q, now, cost, s, t);
    } else if b.value.at <= now {
      ForwardSpends(q, b.value, now, cost, s, t);
    } else {
      RewoundSpends(q, b.value, now, cost, s, t);
    }
  }

  lemma FreshSpends(q: Quota, now: real, cost: real, s: real, t: real)
    requires Sane(q) && s <= t && 0.0 <= cost <= q.burst
    ensures (if s <= now <= t then cost else 0.0) + Potential(q, Some(Bucket(q.burst - cost, now)), s, t)
         <= q.burst + Gain(q, s, t)
  {
    if now <= s {
      Flow(q, now, s, t);
    } else if now <= t {
      Flow(q, s, now, t);
    } else {
      Flow(q, s, t, now);
    }
  }

  lemma ForwardSpends(q: Quota, x: Bucket, now: real, cost: real, s: real, t: real)
    requires Sane(q) && s <= t && x.at <= now && 0.0 <= x.tokens <= q.burst
    requires 0.0 <= cost <= Level(q, Some(x), now)
    ensures (if s <= now <= t then cost else 0.0) + Potential(q, Some(Bucket(Level(q, Some(x), now) - cost, now)), s, t)
         <= Potential(q, Some(x), s, t)
  {
    Flow(q, x.at, x.at, now);
    if now <= s {
      Flow(q, x.at, now, s);
      Flow(q, now, s, t);
    } else if now <= t {
      if x.at <= s {
        Flow(q, x.at, s, now);
        Flow(q, s, now, t);
      } else {
        Flow(q, x.at, now, t);
      }
    } else if x.at <= s {
      Flow(q, x.at, s, t);
      Flow(q, x.at, t, now);
    } else if x.at <= t {
      Flow(q, x.at, t, now);
    } else {
      Flow(q, t, x.at, now);
    }
  }

  lemma RewoundSpends(q: Quota, x: Bucket, now: real, cost: real, s: real, t: real)
    requires Sane(q) && s <= t && now < x.at && 0.0 <= x.tokens <= q.burst
    requires 0.0 <= cost <= Level(q, Some(x), now)
    ensures (if s <= now <= t then cost else 0.0) + Potential(q, Some(Bucket(Level(q, Some(x), now) - cost, now)), s, t)
         <= Potential(q, Some(x), s, t) + Gain(q, now, x.at)
  {
    assert Level(q, Some(x), now) == x.tokens;
    if x.at <= s {
      Flow(q, now, x.at, s);
      Flow(q, x.at, s, t);
    } else if x.at <= t {
      if now <= s {
        Flow(q, now, s, x.at);
        Flow(q, s, x.at, t);
      } else {
        Flow(q, now, x.at, t);
      }
    } else if now <= s {
      Flow(q, now, s, t);
      Flow(q, now, t, x.at);
      Flow(q, s, t, x.at);
    } else if now <= t {
      Flow(q, now, t, x.at);
    } else {
      Flow(q, t, now, x.at);
    }
  }

  lemma PotentialIsNonNegative(q: Quota, b: Option<Bucket>, s: real, t: real)
    requires Sane(q) && s <= t && InBounds(q, b)
    ensures 0.0 <= Potential(q, b, s, t)
  {
    Flow(q, s, s, t);
    if b.Some? {
      if b.value.at <= s {
        Flow(q, b.value.at, s, s);
      } else if b.value.at <= t {
        Flow(q, b.value.at, t, t);
      }
    }
  }

  lemma TakeKeepsBounds(q: Quota, b: Option<Bucket>, now: real, cost: real)
    requires Sane(q) && InBounds(q, b) && 0.0 <= cost
    ensures InBounds(q, TakeOne(q, b, now, cost).0)
  {
  }

  ghost predicate Costs(calls: seq<Call>) {
    forall i :: 0 <= i < |calls| ==> 0.0 <= calls[i].cost
  }

  lemma {:induction false} AdmittedIsBounded(q: Quota, b: Option<Bucket>, calls: seq<Call>, s: real, t: real)
    requires Sane(q) && s <= t && Costs(calls) && InBounds(q, b)
    ensures Admitted(q, b, calls, s, t) <= Potential(q, b, s, t) + Backflow(q, b, calls)
    ensures InBounds(q, After(q, b, calls))
    decreases |calls|
  {
    if calls == [] {
      PotentialIsNonNegative(q, b, s, t);
    } else {
      var c := calls[0];
      var (b', ok) := TakeOne(q, b, c.now, c.cost);
      TakeKeepsBounds(q, b, c.now, c.cost);
      assert forall i :: 0 <= i < |calls[1..]| ==> calls[1..][i] == calls[i + 1];
      AdmittedIsBounded(q, b', calls[1..], s, t);
      if ok {
        TakeSpendsPotential(q, b, c.now, c.cost, s, t);
      }
    }
  }

  /**
   The token-bucket bound, whatever the clock does: the cost admitted in any
   window [s, t] is at most burst + rate * (t - s), plus what flows in again
   over the time the clock went back between admitted calls; and the stored
   tokens stay between zero and the burst.
   */
  lemma AnyClockBound(q: Quota, calls: seq<Call>, s: real, t: real)
    requires Sane(q) && s <= t && Costs(calls)
    ensures Admitted(q, None, calls, s, t) <= q.burst + q.rate * (t - s) + q.rate * Rewound(q, None, calls)
    ensures InBounds(q, After(q, None, calls))
  {
    AdmittedIsBounded(q, None, calls, s, t);
    BackflowIsRewound(q, None, calls);
    FullPotential(q, s, t);
  }

  lemma FullPotential(q: Quota, s: real, t: real)
    requires Sane(q) && s <= t
    ensures Potential(q, None, s, t) == q.burst + q.rate * (t - s)
  {
    Flow(q, s, s, t);
  }

  lemma {:induction false} OrderedNeverRewinds(q: Quota, b: Option<Bucket>, calls: seq<Call>)
    requires Sane(q) && Ordered(calls) && Behind(q, b, calls)
    ensures Rewound(q, b, calls) == 0.0
    decreases |calls|
  {
    if calls != [] {
      TakeKeepsBehind(q, b, calls);
      OrderedNeverRewinds(q, TakeOne(q, b, calls[0].now, calls[0].cost).0, calls[1..]);
    }
  }

  /** Under a clock that never goes back, at most burst + rate * (t - s). */
  lemma WindowBound(q: Quota, calls: seq<Call>, s: real, t: real)
    requires Sane(q) && s <= t && Ordered(calls)
    ensures Admitted(q, None, calls, s, t) <= q.burst + q.rate * (t - s)
    ensures InBounds(q, After(q, None, calls))
  {
    AnyClockBound(q, calls, s, t);
    OrderedNeverRewinds(q, None, calls);
  }

  // ----------------------------------------------- lazy refill is exact

  /** A bucket that is refilled and written back at every call, refused or not. */
  function EagerTake(q: Quota, b: Option<Bucket>, now: real, cost: real): (Option<Bucket>, bool) {
    var level := Level(q, b, now);
    if level < cost then (Some(Bucket(level, now)), false)
    else (Some(Bucket(level - cost, now)), true)
  }

  function Answers(q: Quota, b: Option<Bucket>, calls: seq<Call>): seq<bool>
    decreases |calls|
  {
    if calls == [] then []
    else
      var (b', ok) := TakeOne(q, b, calls[0].now, calls[0].cost);
      [ok] + Answers(q, b', calls[1..])
  }

  function EagerAnswers(q: Quota, b: Option<Bucket>, calls: seq<Call>): seq<bool>
    decreases |calls|
  {
    if calls == [] then []
    else
      var (b', ok) := EagerTake(q, b, calls[0].now, calls[0].cost);
      [ok] + EagerAnswers(q, b', calls[1..])
  }

  /** Refilling in two steps or in one comes to the same level. */
  lemma RefillComposes(q: Quota, b: Option<Bucket>, now: real, later: real)
    requires Sane(q) && now <= later
    requires b.Some? ==> b.value.tokens <= q.burst && b.value.at <= now
    ensures Level(q, Some(Bucket(Level(q, b, now), now)), later) == Level(q, b, later)
  {
    Flow(q, now, now, later);
    if b.Some? {
      Flow(q, b.value.at, now, later);
    }
  }

  /** Writing nothing on a refusal admits exactly what continuous refilling would. */
  lemma {:induction false} LazyRefillIsExact(q: Quota, lazy: Option<Bucket>, eager: Option<Bucket>, calls: seq<Call>)
    requires Sane(q) && Ordered(calls) && Behind(q, lazy, calls) && Behind(q, eager, calls)
    requires forall i :: 0 <= i < |calls| ==> Level(q, lazy, calls[i].now) == Level(q, eager, calls[i].now)
    ensures Answers(q, lazy, calls) == EagerAnswers(q, eager, calls)
    decreases |calls|
  {
    if calls != [] {
      var c := calls[0];
      var lazy', eager' := TakeOne(q, lazy, c.now, c.cost).0, EagerTake(q, eager, c.now, c.cost).0;
      TakeKeepsBehind(q, lazy, calls);
      if lazy.Some? {
        Flow(q, lazy.value.at, c.now, c.now);
      }
      if eager.Some? {
        Flow(q, eager.value.at, c.now, c.now);
      }
      assert Behind(q, eager', calls[1..]);
      forall i | 0 <= i < |calls[1..]|
        ensures Level(q, lazy', calls[1..][i].now) == Level(q, eager', calls[1..][i].now)
      {
        assert calls[1..][i] == calls[i + 1];
        RefillComposes(q, eager, c.now, calls[i + 1].now);
      }
      LazyRefillIsExact(q, lazy', eager', calls[1..]);
    }
  }

  lemma LazyRefillIsExactFromStart(q: Quota, calls: seq<Call>)
    requires Sane(q) && Ordered(calls)
    ensures Answers(q, None, calls) == EagerAnswers(q, None, calls)
  {
    LazyRefillIsExact(q, None, None, calls);
  }

  /**
   The term for a rewound clock is needed, and no smaller one would do: take
   `first` from a full bucket, `between` while the clock is set back by `back`,
   and all there is when it is right again.  The burst is exceeded in no time
   exactly when something was taken at first and more flowed in again than was
   taken in between; with nothing taken in between and a full first take it is
   exceeded by all that flowed in again, up to another burst.
   */
  lemma ClockSetBackRefillsTwice(q: Quota, now: real, back: real, first: real, between: real)
    requires Sane(q) && 0.0 <= back && 0.0 <= first && 0.0 <= between && first + between <= q.burst
    ensures var last := MinR(q.burst, q.burst - first - between + back * q.rate);
      var calls := [Call(now, first)] + ([Call(now - back, between)] + ([Call(now, last)] + []));
      var admitted := Admitted(q, None, calls, now, now);
      && (0.0 < back ==> admitted == first + last)
      && (0.0 < back ==> (admitted > q.burst <==> first > 0.0 && between < back * q.rate))
      && Rewound(q, None, calls) == back
  {
    var b1, b2 := Some(Bucket(q.burst - first, now)), Some(Bucket(q.burst - first - between, now - back));
    var last := MinR(q.burst, q.burst - first - between + back * q.rate);
    var third := [Call(now, last)] + [];
    var second := [Call(now - back, between)] + third;
    Flow(q, now - back, now - back, now);
    assert Level(q, None, now) == q.burst && Level(q, b1, now - back) == q.burst - first && Level(q, b2, now) == last;
    AdmitFirst(q, b2, Call(now, last), [], now, now);
    AdmitFirst(q, b1, Call(now - back, between), third, now, now);
    AdmitFirst(q, None, Call(now, first), second, now, now);
  }

  lemma AdmitFirst(q: Quota, b: Option<Bucket>, c: Call, rest: seq<Call>, s: real, t: real)
    requires c.cost <= Level(q, b, c.now)
    ensures var b' := Some(Bucket(Level(q, b, c.now) - c.cost, c.now));
      && Admitted(q, b, [c] + rest, s, t)
           == (if s <= c.now <= t then c.cost else 0.0) + Admitted(q, b', rest, s, t)
      && Rewound(q, b, [c] + rest)
           == (if b.Some? then MaxR(0.0, b.value.at - c.now) else 0.0) + Rewound(q, b', rest)
  {
    assert ([c] + rest)[1..] == rest;
  }

  // ---------------------------------------------------------- the counters

  /** Amounts admitted by `bump` for one key and window. */
  function Bumps(used: real, cap: real, amounts: seq<real>): real
    decreases |amounts|
  {
    if amounts == [] then used
    else Bumps(if used + amounts[0] <= cap then used + amounts[0] else used, cap, amounts[1..])
  }

  /** A window never admits more than its cap, whatever is asked for in it. */
  lemma {:induction false} BumpsStayUnderCap(used: real, cap: real, amounts: seq<real>)
    requires used <= cap
    ensures Bumps(used, cap, amounts) <= cap
    decreases |amounts|
  {
    if amounts != [] {
      BumpsStayUnderCap(if used + amounts[0] <= cap then used + amounts[0] else used, cap, amounts[1..]);
    }
  }
}
