/** Who the governor admits in the end, and how the classes fall out of contention. */
module Admission {
  import opened Bytes
  import opened Rolling
  import opened Governor
  import opened Spending

  // ---- waiting ---------------------------------------------------------------------------------------------

  lemma {:induction false} OldEntriesGo(log: seq<Entry>, cutoff: int)
    requires forall e :: e in log ==> e.at <= cutoff
    ensures After(log, cutoff) == []
  {
    if log != [] {
      OldEntriesGo(log[..|log| - 1], cutoff);
    }
  }

  // A time by which everything in the log has left the hour.
  lemma {:induction false} AllLeave(log: seq<Entry>) returns (t: int)
    ensures forall e :: e in log ==> e.at <= t - HOUR
  {
    if log == [] {
      t := 0;
    } else {
      var last := |log| - 1;
      t := AllLeave(log[..last]);
      t := Max(t, log[last].at + HOUR);
      forall e | e in log
        ensures e.at <= t - HOUR
      {
        assert e in log[..last] || e == log[last];
      }
    }
  }

  // A span long enough to fill any bucket.
  lemma LongEnough(rate: real, capacity: int) returns (w: nat)
    requires rate > 0.0 && capacity >= 0
    ensures forall k: int :: k >= w ==> Accrued(k, rate) >= capacity
  {
    var x := capacity as real / rate;
    assert x * rate == capacity as real;
    w := Max(x.Floor + 1, 0);
    forall k: int | k >= w
      ensures Accrued(k, rate) >= capacity
    {
      MulAtMost(rate, x, k as real);
      var y := k as real * rate;
      assert y >= capacity as real;
    }
  }

  predicate FitsTheDuty(c: Config, n: nat) {
    DutyLimit(c.region).None? || c.air(n) <= DutyLimit(c.region).value
  }

  predicate FitsTheBucket(c: Config, s: State, n: nat, rank: Class) {
    Cost(c, s.r, n) + Held(rank, s.capacity) <= s.capacity
  }

  // A full bucket and an empty log admit whatever can be admitted at all.
  lemma AdmittedWhenRested(c: Config, s: State, now: int, n: nat, rank: Class)
    requires Ready(c) && Valid(s) && now > s.last && !c.quiet(now) && (Silenced(s) ==> rank == DM)
    requires Accrued(now - s.last, Rate(c, s.instances, s.penalty)) >= s.capacity
    requires forall e :: e in s.localTX ==> e.at <= now - HOUR
    requires FitsTheDuty(c, n) && FitsTheBucket(c, s, n, rank)
    ensures Judge(c, s, now, n, rank).1 == Admit
  {
    hide Rate, Accrued, Cost, Held, BucketsFit;
    OldEntriesGo(s.localTX, now - HOUR);
  }

  lemma AdmittedFits(c: Config, s: State, now: int, n: nat, rank: Class)
    requires Ready(c) && Valid(s) && Judge(c, s, now, n, rank).1 == Admit
    ensures (Silenced(s) ==> rank == DM) && FitsTheDuty(c, n) && FitsTheBucket(c, s, n, rank)
  {
    JudgeOnlyRefills(c, s, now, n, rank);
    RefillKeepsValid(c, s, now);
    hide Judge, Refill, Cost, Held, BucketsFit;
  }

  ghost predicate WakesAfter(c: Config, t: int) {
    exists u: int :: t <= u && !c.quiet(u)
  }

  /** With nobody else spending and quiet hours that end, a packet is admitted after some finite wait exactly
      when a full bucket covers its cost above the class's reserve, the regional limit covers its airtime, and
      the channel is not so busy that only direct mail passes. */
  lemma AdmittedInTheEnd(c: Config, s: State, n: nat, rank: Class)
    requires Ready(c) && Valid(s) && (forall t: int :: WakesAfter(c, t))
    ensures (exists now: int :: now > s.last && Judge(c, s, now, n, rank).1 == Admit)
              <==> (Silenced(s) ==> rank == DM) && FitsTheDuty(c, n) && FitsTheBucket(c, s, n, rank)
  {
    if (Silenced(s) ==> rank == DM) && FitsTheDuty(c, n) && FitsTheBucket(c, s, n, rank) {
      RateIsAtMostTheShare(c, s);
      hide Judge, Cost, Held, Accrued, Rate, BucketsFit;
      var w := LongEnough(Rate(c, s.instances, s.penalty), s.capacity);
      var t := AllLeave(s.localTX);
      var ready := Max(t, s.last + w + 1);
      assert WakesAfter(c, ready);
      var now: int :| ready <= now && !c.quiet(now);
      AdmittedWhenRested(c, s, now, n, rank);
    }
    forall now: int | now > s.last && Judge(c, s, now, n, rank).1 == Admit
      ensures (Silenced(s) ==> rank == DM) && FitsTheDuty(c, n) && FitsTheBucket(c, s, n, rank)
    {
      AdmittedFits(c, s, now, n, rank);
    }
  }

  /** At the smallest bucket, three full packets, every class but the last can always afford a full packet in
      the end; door events, which must leave seven tenths, never can once a packet costs ten nanoseconds. */
  lemma DoorEventsStarveAtTheFloor(c: Config, s: State, rank: Class)
    requires Ready(c) && Valid(s) && s.capacity == 3 * Cost(c, s.r, FULL_PACKET)
    ensures FitsTheBucket(c, s, FULL_PACKET, rank) <==> rank != DoorEvent || Cost(c, s.r, FULL_PACKET) < 10
  {
    var cost := Cost(c, s.r, FULL_PACKET);
    CostIsAtLeastTheAirtime(c, s.r, FULL_PACKET);
    hide Cost;
    var whole := s.capacity as real;
    assert whole == 3.0 * cost as real;
  }

  // The state the last two rules look at, and the verdict in terms of it.
  function Rested(c: Config, s: State, now: int): State
    requires s.instances >= 1 && s.penalty >= 1.0
  {
    DutyPruned(c, Refill(c, s, now), now)
  }

  lemma JudgeByRules(c: Config, s: State, now: int, n: nat, rank: Class)
    requires Ready(c) && Valid(s)
    ensures var t := Rested(c, s, now);
            && t.capacity == s.capacity && t.r == s.r
            && (Judge(c, s, now, n, rank).1 == Busy <==> !c.quiet(now) && Silenced(s) && rank != DM)
            && (Judge(c, s, now, n, rank).1 == Admit <==>
                  !c.quiet(now) && (Silenced(s) ==> rank == DM) && DutyAllows(c, t, n) && Affords(c, t, n, rank))
  {
    RefillKeepsValid(c, s, now);
    hide Refill, Cost, Held, BucketsFit;
  }

  lemma CostIsMonotone(c: Config, r: real, m: nat, n: nat)
    requires r >= 0.0 && c.air(m) <= c.air(n)
    ensures Cost(c, r, m) <= Cost(c, r, n)
  {
    MulAtMost(r, c.air(m) as real, c.air(n) as real);
    var x, y := c.air(m) as real * r, c.air(n) as real * r;
    assert x <= y;
  }

  /** Where a class is admitted, every class with no greater reserve is admitted with any packet no longer,
      unless the channel is so busy that only direct mail passes. */
  lemma LadderIsUpwardClosed(c: Config, s: State, now: int, n: nat, m: nat, low: Class, high: Class)
    requires Ready(c) && Valid(s) && Judge(c, s, now, n, high).1 == Admit
    requires Reserve(low) <= Reserve(high) && c.air(m) <= c.air(n)
    ensures Judge(c, s, now, m, low).1 == if Silenced(s) && low != DM then Busy else Admit
  {
    JudgeByRules(c, s, now, n, high);
    JudgeByRules(c, s, now, m, low);
    HeldFollowsReserve(low, high, s.capacity);
    CostIsMonotone(c, s.r, m, n);
    hide Cost, Held, Reserve, BucketsFit, Judge, Rested;
  }

  // ---- polling ---------------------------------------------------------------------------------------------

  lemma AccruedInTwo(a: int, b: int, rate: real)
    ensures Accrued(a, rate) + Accrued(b, rate) <= Accrued(a + b, rate) <= Accrued(a, rate) + Accrued(b, rate) + 1
  {
    assert (a + b) as real * rate == a as real * rate + b as real * rate;
  }

  /** One extra refill on the way never gains anything, and loses at most a nanosecond to rounding. */
  lemma PollingLosesAtMostANanosecond(c: Config, s: State, mid: int, now: int)
    requires Ready(c) && Valid(s) && s.last <= mid <= now
    ensures Valid(Refill(c, s, mid))
    ensures var once, twice := Refill(c, s, now), Refill(c, Refill(c, s, mid), now);
            && twice.tokens <= once.tokens <= twice.tokens + 1
            && (now > mid ==> once.localTX == twice.localTX)
  {
    RefillKeepsValid(c, s, mid);
    var rate := Rate(c, s.instances, s.penalty);
    RateIsAtMostTheShare(c, s);
    AccruedIsAtMost(mid - s.last, rate, rate);
    AccruedIsAtMost(now - mid, rate, rate);
    AccruedInTwo(mid - s.last, now - mid, rate);
    AfterTwice(s.localTX, mid - HOUR, now - HOUR);
    hide Rate, Accrued, BucketsFit, After;
  }

  // What the rate earns over a span, before rounding.
  function Earned(rate: real, elapsed: nat): real {
    rate * elapsed as real
  }

  // The gap between two readings is too short for the rate to earn a nanosecond.
  ghost predicate TooSoon(c: Config, instances: int, penalty: real, gap: nat)
    requires instances >= 1 && penalty >= 1.0
  {
    Earned(Rate(c, instances, penalty), gap) < 1.0
  }

  lemma RoundsDownToNothing(gap: nat, rate: real)
    requires 0.0 <= rate && Earned(rate, gap) < 1.0
    ensures Accrued(gap, rate) == 0
  {
    AccruedIsAtMost(gap, rate, rate);
    var whole := Accrued(gap, rate);
    hide Accrued;
    assert whole as real < 1.0;
  }

  lemma NothingAccrues(c: Config, s: State, gap: nat)
    requires Ready(c) && Valid(s) && TooSoon(c, s.instances, s.penalty, gap)
    ensures Accrued(gap, Rate(c, s.instances, s.penalty)) == 0
  {
    hide Rate, Earned, Accrued, ShareFraction;
    RateIsAtMostTheShare(c, s);
    RoundsDownToNothing(gap, Rate(c, s.instances, s.penalty));
  }

  function Polls(from: int, gap: int, k: nat): seq<Event>
    decreases k
  {
    if k == 0 then [] else [Poll(from + gap)] + Polls(from + gap, gap, k - 1)
  }

  lemma PollTooSoon(c: Config, s: State, gap: nat)
    requires Ready(c) && Valid(s) && TooSoon(c, s.instances, s.penalty, gap)
    ensures var t := Refill(c, s, s.last + gap);
            && Valid(t) && t.tokens == s.tokens && t.last == s.last + gap
            && t.instances == s.instances && t.penalty == s.penalty
  {
    hide Rate, Accrued, BucketsFit, Pruned, TooSoon, ShareFraction;
    RefillKeepsValid(c, s, s.last + gap);
    NothingAccrues(c, s, gap);
    assert s.last + gap - s.last == gap;
  }

  lemma {:induction false} TooSoonStarves(c: Config, s: State, gap: nat, k: nat)
    requires Ready(c) && Valid(s) && TooSoon(c, s.instances, s.penalty, gap)
    ensures Run(c, s, Polls(s.last, gap, k)).tokens == s.tokens
    decreases k
  {
    if k > 0 {
      hide TooSoon, BucketsFit, Refill, Rate, Earned;
      PollTooSoon(c, s, gap);
      TooSoonStarves(c, Refill(c, s, s.last + gap), gap, k - 1);
    }
  }

  lemma {:induction false} PollsNeverLose(c: Config, s: State, from: int, gap: int, k: nat)
    requires Ready(c) && Valid(s)
    ensures Run(c, s, Polls(from, gap, k)).tokens >= s.tokens
    decreases k
  {
    if k > 0 {
      hide BucketsFit, Refill;
      RefillKeepsValid(c, s, from + gap);
      PollsNeverLose(c, Refill(c, s, from + gap), from + gap, gap, k - 1);
    }
  }

  lemma EarnsAWhole(gap: nat, rate: real)
    requires Earned(rate, gap) >= 1.0
    ensures Accrued(gap, rate) >= 1
  {
  }

  lemma PollLateEnough(c: Config, s: State, gap: nat)
    requires Ready(c) && Valid(s) && s.tokens < s.capacity && !TooSoon(c, s.instances, s.penalty, gap)
    ensures Refill(c, s, s.last + gap).tokens > s.tokens
  {
    EarnsAWhole(gap, Rate(c, s.instances, s.penalty));
    hide Rate, Accrued, BucketsFit, Pruned, ShareFraction;
    assert gap > 0 by {
      assert Earned(Rate(c, s.instances, s.penalty), 0) == 0.0;
    }
    hide Earned;
    assert s.last + gap - s.last == gap;
  }

  /** A bucket that is not full, refilled at a steady pace, never gains anything, however long it goes on,
      exactly when the pace is too fast for the rate to earn a nanosecond between two readings. */
  lemma FastPollingStarves(c: Config, s: State, gap: nat, k: nat)
    requires Ready(c) && Valid(s) && s.tokens < s.capacity && k >= 1
    ensures Run(c, s, Polls(s.last, gap, k)).tokens == s.tokens <==> TooSoon(c, s.instances, s.penalty, gap)
  {
    hide TooSoon, BucketsFit, Refill, Rate, Earned;
    if TooSoon(c, s.instances, s.penalty, gap) {
      TooSoonStarves(c, s, gap, k);
    } else {
      PollLateEnough(c, s, gap);
      RefillKeepsValid(c, s, s.last + gap);
      PollsNeverLose(c, Refill(c, s, s.last + gap), s.last + gap, gap, k - 1);
    }
  }
}
