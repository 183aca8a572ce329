/**
 The minute-bucketed velocity counters (src/api/decision/repository_memory.py)
 against the exact sliding window they stand in for.  Times are whole
 microseconds since some epoch; a bucket is the minute an event falls in.
 */
module Velocity {
  const MINUTE := 60_000_000

  function Minute(t: int): int {
    t - t % MINUTE
  }

  datatype Counter = Intents | AmountSum | Escalations

  datatype Slot = Slot(mandate: string, counter: Counter, bucket: int)

  /** One recorded increment; the value is 1 for counts and the cents for sums. */
  datatype Event = Event(mandate: string, counter: Counter, at: int, value: nat)

  function SlotOf(e: Event): Slot {
    Slot(e.mandate, e.counter, Minute(e.at))
  }

  /** Exact total of the increments of one counter at times in [from, to]. */
  function Exact(history: seq<Event>, mandate: string, counter: Counter, from: int, to: int): nat {
    if history == [] then 0
    else
      var e := history[|history| - 1];
      Exact(history[..|history| - 1], mandate, counter, from, to)
      + (if e.mandate == mandate && e.counter == counter && from <= e.at <= to then e.value else 0)
  }

  /** Total of the increments whose bucket is one of `slots`. */
  function Over(history: seq<Event>, slots: set<Slot>): nat {
    if history == [] then 0
    else
      var e := history[|history| - 1];
      Over(history[..|history| - 1], slots)
      + (if SlotOf(e) in slots then e.value else 0)
  }

  function At(history: seq<Event>, s: Slot): nat {
    Over(history, {s})
  }

  class VelocityStore {
    var buckets: map<Slot, nat>
    ghost var history: seq<Event>

    /** Every bucket is the sum of the increments that fell into it, and none is missing. */
    ghost predicate Valid()
      reads this
    {
      && (forall s :: s in buckets ==> buckets[s] == At(history, s))
      && (forall s :: s !in buckets ==> At(history, s) == 0)
    }

    constructor ()
      ensures Valid() && history == []
    {
      buckets, history := map[], [];
    }

    method Add(mandate: string, counter: Counter, now: int, value: nat)
      requires Valid()
      modifies this
      ensures Valid()
      ensures history == old(history) + [Event(mandate, counter, now, value)]
    {
      var slot := Slot(mandate, counter, Minute(now));
      buckets := buckets[slot := (if slot in buckets then buckets[slot] else 0) + value];
      history := history + [Event(mandate, counter, now, value)];
      assert history[..|history| - 1] == old(history);
    }

    method IncrementIntent(mandate: string, amount: nat, now: int)
      requires Valid()
      modifies this
      ensures Valid()
      ensures history == old(history) + [Event(mandate, Intents, now, 1), Event(mandate, AmountSum, now, amount)]
    {
      Add(mandate, Intents, now, 1);
      Add(mandate, AmountSum, now, amount);
    }

    method IncrementEscalation(mandate: string, now: int)
      requires Valid()
      modifies this
      ensures Valid()
      ensures history == old(history) + [Event(mandate, Escalations, now, 1)]
    {
      Add(mandate, Escalations, now, 1);
    }

    /** Adds up every stored bucket in range, in whatever order the dictionary has them. */
    method Sum(mandate: string, counter: Counter, start: int, end: int) returns (total: nat)
      requires Valid()
      ensures total == Over(history, InRange(buckets.Keys, mandate, counter, start, end))
    {
      var left := InRange(buckets.Keys, mandate, counter, start, end);
      ghost var summed: set<Slot> := {};
      total := 0;
      OverNothing(history);
      while left != {}
        invariant left !! summed && left + summed == InRange(buckets.Keys, mandate, counter, start, end)
        invariant total == Over(history, summed)
        decreases |left|
      {
        var s :| s in left;
        OverDisjoint(history, summed, {s});
        total := total + buckets[s];
        left, summed := left - {s}, summed + {s};
      }
      assert summed == InRange(buckets.Keys, mandate, counter, start, end);
    }

    /** What the store reports for the last `window`, against the exact counts. */
    method Count(mandate: string, counter: Counter, now: int, window: nat) returns (total: nat)
      requires Valid()
      ensures NoFuture(history, now) ==>
        Exact(history, mandate, counter, now - window, now) <= total
      ensures NoFuture(history, now) ==>
        total <= Exact(history, mandate, counter, now - window - MINUTE + 1, now)
    {
      total := Sum(mandate, counter, Minute(now - window), Minute(now));
      StoredRangeIsWhole(buckets, history, mandate, counter, Minute(now - window), Minute(now));
      if NoFuture(history, now) {
        BucketsCoverWindow(history, mandate, counter, now, window);
      }
    }
  }

  predicate SlotIn(s: Slot, mandate: string, counter: Counter, start: int, end: int) {
    s.mandate == mandate && s.counter == counter && start <= s.bucket <= end
  }

  function InRange(slots: set<Slot>, mandate: string, counter: Counter, start: int, end: int): set<Slot> {
    set s | s in slots && SlotIn(s, mandate, counter, start, end)
  }

  ghost predicate NoFuture(history: seq<Event>, now: int) {
    forall i :: 0 <= i < |history| ==> history[i].at <= now
  }

  lemma {:induction false} OverNothing(history: seq<Event>)
    ensures Over(history, {}) == 0
  {
    if history != [] {
      OverNothing(history[..|history| - 1]);
    }
  }

  lemma {:induction false} OverDisjoint(history: seq<Event>, a: set<Slot>, b: set<Slot>)
    requires a !! b
    ensures Over(history, a + b) == Over(history, a) + Over(history, b)
  {
    if history != [] {
      OverDisjoint(history[..|history| - 1], a, b);
    }
  }

  /** Total of the increments whose minute lies between two minutes. */
  function Bucketed(history: seq<Event>, mandate: string, counter: Counter, start: int, end: int): nat {
    if history == [] then 0
    else
      var e := history[|history| - 1];
      Bucketed(history[..|history| - 1], mandate, counter, start, end)
      + (if e.mandate == mandate && e.counter == counter && start <= Minute(e.at) <= end then e.value else 0)
  }

  /** An increment of value counts in its own slot, so an absent slot has none. */
  lemma {:induction false} AbsentMeansZero(history: seq<Event>, k: nat, s: Slot)
    requires k < |history| && s == SlotOf(history[k])
    requires At(history, s) == 0
    ensures history[k].value == 0
  {
    var n := |history| - 1;
    if k < n {
      AbsentMeansZero(history[..n], k, s);
    }
  }

  lemma {:induction false} OverIsBucketed(history: seq<Event>, slots: set<Slot>, mandate: string, counter: Counter,
                                          start: int, end: int)
    requires forall s :: s in slots ==> SlotIn(s, mandate, counter, start, end)
    requires forall k :: 0 <= k < |history| ==>
      (history[k].value > 0 && SlotIn(SlotOf(history[k]), mandate, counter, start, end)
       ==> SlotOf(history[k]) in slots)
    ensures Over(history, slots) == Bucketed(history, mandate, counter, start, end)
  {
    if history != [] {
      var n := |history| - 1;
      assert forall k :: 0 <= k < n ==> history[..n][k] == history[k];
      OverIsBucketed(history[..n], slots, mandate, counter, start, end);
      var e := history[n];
      var s := SlotOf(e);
      assert s in slots ==> SlotIn(s, mandate, counter, start, end);
    }
  }

  /** The buckets kept are all there is: nothing in range was recorded elsewhere. */
  lemma StoredRangeIsWhole(buckets: map<Slot, nat>, history: seq<Event>, mandate: string, counter: Counter,
                           start: int, end: int)
    requires forall s :: s !in buckets ==> At(history, s) == 0
    ensures Over(history, InRange(buckets.Keys, mandate, counter, start, end))
         == Bucketed(history, mandate, counter, start, end)
  {
    var slots := InRange(buckets.Keys, mandate, counter, start, end);
    forall k | 0 <= k < |history|
      ensures history[k].value > 0 && SlotIn(SlotOf(history[k]), mandate, counter, start, end)
        ==> SlotOf(history[k]) in slots
    {
      var s := SlotOf(history[k]);
      if s !in buckets {
        AbsentMeansZero(history, k, s);
      }
    }
    OverIsBucketed(history, slots, mandate, counter, start, end);
  }

  lemma MinuteIsMonotone(a: int, b: int)
    requires a <= b
    ensures Minute(a) <= Minute(b)
    ensures Minute(a) <= a < Minute(a) + MINUTE
  {
    assert a / MINUTE <= b / MINUTE;
    assert Minute(a) == a / MINUTE * MINUTE && Minute(b) == b / MINUTE * MINUTE;
  }

  /**
   Bucketing errs on one side only: the reported total is never below the exact
   total of the window, and never above that of the window plus a minute.
   */
  lemma {:induction false} BucketsCoverWindow(history: seq<Event>, mandate: string, counter: Counter,
                                              now: int, window: nat)
    requires NoFuture(history, now)
    ensures Exact(history, mandate, counter, now - window, now)
         <= Bucketed(history, mandate, counter, Minute(now - window), Minute(now))
         <= Exact(history, mandate, counter, now - window - MINUTE + 1, now)
  {
    if history != [] {
      var n := |history| - 1;
      assert forall k :: 0 <= k < n ==> history[..n][k] == history[k];
      BucketsCoverWindow(history[..n], mandate, counter, now, window);
      var e := history[n];
      assert e.at <= now;
      MinuteIsMonotone(e.at, now);
      MinuteIsMonotone(now - window, now - window);
      if now - window <= e.at {
        MinuteIsMonotone(now - window, e.at);
      }
    }
  }

  /** The slack is real: two events almost two minutes apart are counted together. */
  lemma AlmostTwoMinutesCountTogether(m: string)
    ensures var history := [Event(m, Intents, 0, 1), Event(m, Intents, 2 * MINUTE - 1, 1)];
      var now := 2 * MINUTE - 1;
      && Exact(history, m, Intents, now - MINUTE, now) == 1
      && Bucketed(history, m, Intents, Minute(now - MINUTE), Minute(now)) == 2
  {
    var history := [Event(m, Intents, 0, 1), Event(m, Intents, 2 * MINUTE - 1, 1)];
    var first := [history[0]];
    assert history[..1] == first && first[..0] == [];
    assert Minute(0) == 0 && Minute(MINUTE - 1) == 0 && Minute(2 * MINUTE - 1) == MINUTE;
    assert Exact(first, m, Intents, MINUTE - 1, 2 * MINUTE - 1) == 0;
    assert Bucketed(first, m, Intents, 0, MINUTE) == 1;
  }
}
