/** The cap on one area: its own bucket bounds what it may spend of the instance's share. */
module AreaSpending {
  import opened Bytes
  import opened Governor
  import opened Spending

  // What event e charges to area a.
  function AreaCharge(c: Config, s: State, e: Event, a: AreaTag): int
    requires s.instances >= 1 && s.penalty >= 1.0
  {
    if Sends(c, s, e) && e.area == Some(a) then Cost(c, s.r, e.size) else 0
  }

  function AreaTotal(c: Config, s: State, events: seq<Event>, a: AreaTag): int
    requires Ready(c) && Valid(s)
    decreases |events|
  {
    if events == [] then 0
    else
      StepKeepsValid(c, s, events[0]);
      AreaCharge(c, s, events[0], a) + AreaTotal(c, Step(c, s, events[0]), events[1..], a)
  }

  // The event leaves the roster alone, and area a with this share.
  ghost predicate Keeps(e: Event, a: AreaTag, share: real) {
    !e.Roster? && (e.Caps? ==> a in e.shares && e.shares[a] == share)
  }

  ghost predicate Capped(s: State, a: AreaTag, share: real) {
    a in s.areaShares && s.areaShares[a] == share > 0.0
  }

  // The rate an area may spend at when nothing slows it.
  function TopRate(c: Config, instances: int, share: real): real
    requires instances >= 1
  {
    ShareFraction(c, instances) * share
  }

  // Bucket b can have become bucket b2 while `spent` was charged to it.
  ghost predicate BucketPays(b: Bucket, b2: Bucket, spent: int, rate: real) {
    && b.share == b2.share && b.capacity == b2.capacity && b.last <= b2.last
    && (b2.tokens + spent) as real <= Allowance(b.tokens, rate, b2.last - b.last)
  }

  lemma BucketForPays(c: Config, s: State, a: AreaTag, now: int)
    requires Ready(c) && Valid(s) && a in s.areaBuckets
    ensures BucketPays(s.areaBuckets[a], BucketFor(c, s, a, now), 0, TopRate(c, s.instances, s.areaShares[a]))
  {
    hide ShareFraction, AreaRate, Accrued;
    var b := s.areaBuckets[a];
    assert TopRate(c, s.instances, b.share) * 0.0 == 0.0;
    if now > b.last {
      AreaRateIsAtMostItsShare(c, s, b.share);
      AccruedIsAtMost(now - b.last, AreaRate(c, s.instances, s.penalty, b.share),
        ShareFraction(c, s.instances) * b.share);
    }
  }

  lemma SendKeepsCap(c: Config, s: State, e: Event, a: AreaTag, share: real)
    requires Ready(c) && Valid(s) && Capped(s, a, share) && Keeps(e, a, share)
    ensures var t := Step(c, s, e); t.instances == s.instances && Capped(t, a, share)
  {
    hide Charge, Judge, Refill, BucketsFit;
    match e
    case Send(checked, now, n, rank, area) =>
      ChargeSettles(c, s, checked, now, n, rank, area);
      RefillKeepsValid(c, s, checked);
    case Ask(now, n, rank) =>
      JudgeOnlyRefills(c, s, now, n, rank);
      RefillKeepsValid(c, s, now);
    case Poll(now) => RefillKeepsValid(c, s, now);
    case Hear(now, util) => RefillKeepsValid(c, s, now);
    case Echo =>
    case Caps(shares) =>
  }

  lemma SendPaysForItsArea(c: Config, s: State, e: Event, a: AreaTag)
    requires Ready(c) && Valid(s) && a in s.areaBuckets && e.Send?
    ensures a in Step(c, s, e).areaBuckets
    ensures BucketPays(s.areaBuckets[a], Step(c, s, e).areaBuckets[a], AreaCharge(c, s, e, a),
                       TopRate(c, s.instances, s.areaShares[a]))
  {
    hide Charge, Judge, BucketFor, Cost, TopRate;
    SharesAgree(s, a);
    ChargeSettlesArea(c, s, e.checked, e.now, e.size, e.rank, e.area, a);
    BucketForPays(c, s, a, e.now);
  }

  lemma OthersLeaveTheBucket(c: Config, s: State, e: Event, a: AreaTag, share: real)
    requires Ready(c) && Valid(s) && a in s.areaBuckets && Capped(s, a, share) && Keeps(e, a, share) && !e.Send?
    ensures a in Step(c, s, e).areaBuckets && Step(c, s, e).areaBuckets[a] == s.areaBuckets[a]
  {
    hide Judge, Refill, BucketsFit;
    match e
    case Ask(now, n, rank) =>
      JudgeOnlyRefills(c, s, now, n, rank);
      RefillKeepsValid(c, s, now);
    case Poll(now) => RefillKeepsValid(c, s, now);
    case Hear(now, util) => RefillKeepsValid(c, s, now);
    case Echo =>
    case Caps(shares) => SharesAgree(s, a);
  }

  lemma StepPaysForItsArea(c: Config, s: State, e: Event, a: AreaTag, share: real)
    requires Ready(c) && Valid(s) && a in s.areaBuckets && Capped(s, a, share) && Keeps(e, a, share)
    ensures a in Step(c, s, e).areaBuckets
    ensures BucketPays(s.areaBuckets[a], Step(c, s, e).areaBuckets[a], AreaCharge(c, s, e, a),
                       TopRate(c, s.instances, share))
  {
    hide TopRate, Step, BucketsFit;
    if e.Send? {
      hide BucketPays, AreaCharge;
      SendPaysForItsArea(c, s, e, a);
    } else {
      OthersLeaveTheBucket(c, s, e, a, share);
    }
  }

  lemma SharesAgree(s: State, a: AreaTag)
    requires Valid(s) && a in s.areaBuckets
    ensures a in s.areaShares && s.areaBuckets[a].share == s.areaShares[a]
  {
  }

  lemma BucketPaysOnward(b: Bucket, b1: Bucket, b2: Bucket, x: int, y: int, rate: real)
    requires BucketPays(b, b1, x, rate) && BucketPays(b1, b2, y, rate)
    ensures BucketPays(b, b2, x + y, rate)
  {
    assert rate * (b2.last - b.last) as real == rate * (b2.last - b1.last) as real + rate * (b1.last - b.last) as real;
  }

  lemma BucketPaysNothing(b: Bucket, rate: real)
    ensures BucketPays(b, b, 0, rate)
  {
  }

  lemma {:induction false} RunPaysForItsArea(c: Config, s: State, events: seq<Event>, a: AreaTag, share: real)
    requires Ready(c) && Valid(s) && a in s.areaBuckets && Capped(s, a, share)
    requires forall e :: e in events ==> Keeps(e, a, share)
    ensures a in Run(c, s, events).areaBuckets
    ensures BucketPays(s.areaBuckets[a], Run(c, s, events).areaBuckets[a], AreaTotal(c, s, events, a),
                       TopRate(c, s.instances, share))
    decreases |events|
  {
    hide Step, BucketsFit, BucketPays, Capped, Keeps, AreaCharge, TopRate;
    if events == [] {
      BucketPaysNothing(s.areaBuckets[a], TopRate(c, s.instances, share));
    } else {
      var t := Step(c, s, events[0]);
      StepKeepsValid(c, s, events[0]);
      SendKeepsCap(c, s, events[0], a, share);
      StepPaysForItsArea(c, s, events[0], a, share);
      RunPaysForItsArea(c, t, events[1..], a, share);
      BucketPaysOnward(s.areaBuckets[a], t.areaBuckets[a], Run(c, t, events[1..]).areaBuckets[a],
                       AreaCharge(c, s, events[0], a), AreaTotal(c, t, events[1..], a), TopRate(c, s.instances, share));
    }
  }

  lemma {:induction false} AreaLastIsARead(c: Config, s: State, events: seq<Event>, a: AreaTag, share: real, until: int)
    requires Ready(c) && Valid(s) && a in s.areaBuckets && Capped(s, a, share) && s.areaBuckets[a].last <= until
    requires forall e :: e in events ==> Keeps(e, a, share) && ReadBy(e, until)
    ensures a in Run(c, s, events).areaBuckets && Run(c, s, events).areaBuckets[a].last <= until
    decreases |events|
  {
    if events != [] {
      var e := events[0];
      assert ReadBy(e, until) && Keeps(e, a, share);
      StepKeepsValid(c, s, e);
      SendKeepsCap(c, s, e, a, share);
      StepPaysForItsArea(c, s, e, a, share);
      BucketReadBy(c, s, e, a, share, until);
      hide Step, Valid, Capped, Keeps, ReadBy, BucketPays;
      AreaLastIsARead(c, Step(c, s, e), events[1..], a, share, until);
    }
  }

  lemma BucketReadBy(c: Config, s: State, e: Event, a: AreaTag, share: real, until: int)
    requires Ready(c) && Valid(s) && a in s.areaBuckets && Capped(s, a, share) && s.areaBuckets[a].last <= until
    requires Keeps(e, a, share) && ReadBy(e, until) && a in Step(c, s, e).areaBuckets
    ensures Step(c, s, e).areaBuckets[a].last <= until
  {
    hide Accrued, AreaRate, Cost, BucketsFit;
    if e.Send? {
      ChargeSettlesArea(c, s, e.checked, e.now, e.size, e.rank, e.area, a);
    } else if e.Ask? {
      JudgeOnlyRefills(c, s, e.now, e.size, e.rank);
    }
  }

  lemma TopRateIsPositive(c: Config, instances: int, share: real)
    requires Ready(c) && instances >= 1 && share > 0.0
    ensures TopRate(c, instances, share) > 0.0
  {
    hide ShareFraction;
    ShareIsPositive(c, instances);
  }

  lemma BucketCovers(b: Bucket, b2: Bucket, spent: int, rate: real, until: int)
    requires BucketPays(b, b2, spent, rate) && b2.tokens >= 0 && rate >= 0.0 && b2.last <= until
    ensures spent as real <= Allowance(b.tokens, rate, until - b.last)
  {
    MulAtMost(rate, (b2.last - b.last) as real, (until - b.last) as real);
  }

  // From a bucket that exists: what it holds and what time can add is all that can be charged to it.
  lemma BucketCoversTheRun(c: Config, s: State, events: seq<Event>, a: AreaTag, share: real, until: int)
    requires Ready(c) && Valid(s) && a in s.areaBuckets && Capped(s, a, share) && s.areaBuckets[a].last <= until
    requires forall e :: e in events ==> Keeps(e, a, share) && ReadBy(e, until)
    ensures AreaTotal(c, s, events, a) as real
              <= Allowance(s.areaBuckets[a].tokens, TopRate(c, s.instances, share), until - s.areaBuckets[a].last)
  {
    TopRateIsPositive(c, s.instances, share);
    hide Capped, Keeps, ReadBy, TopRate, BucketsFit, AreaTotal, Run, Allowance, BucketPays;
    RunPaysForItsArea(c, s, events, a, share);
    AreaLastIsARead(c, s, events, a, share, until);
    var t := Run(c, s, events);
    BucketCovers(s.areaBuckets[a], t.areaBuckets[a], AreaTotal(c, s, events, a), TopRate(c, s.instances, share), until);
  }

  lemma FirstChargeFits(c: Config, s: State, e: Event, a: AreaTag, share: real)
    requires Ready(c) && Valid(s) && Capped(s, a, share) && Keeps(e, a, share)
    requires Sends(c, s, e) && e.area == Some(a) && (a in s.areaBuckets ==> s.areaBuckets[a].last <= e.now)
    ensures var t := Step(c, s, e);
            && Valid(t) && t.instances == s.instances && Capped(t, a, share) && a in t.areaBuckets
            && t.areaBuckets[a].last == e.now
            && t.areaBuckets[a].tokens + AreaCharge(c, s, e, a) <= BucketFor(c, s, a, e.now).capacity
  {
    FirstSend(c, s, e, a);
    hide BucketFor, Sends, BucketsFit, AreaCharge, Step;
    StepKeepsValid(c, s, e);
    SendKeepsCap(c, s, e, a, share);
  }

  lemma FirstAndRest(c: Config, s: State, e: Event, rest: seq<Event>, a: AreaTag, share: real, until: int)
    requires Ready(c) && Valid(s) && Capped(s, a, share) && Keeps(e, a, share) && ReadBy(e, until)
    requires forall f :: f in rest ==> Keeps(f, a, share) && ReadBy(f, until)
    requires Sends(c, s, e) && e.area == Some(a) && (a in s.areaBuckets ==> s.areaBuckets[a].last <= e.now)
    ensures Valid(Step(c, s, e))
    ensures (AreaCharge(c, s, e, a) + AreaTotal(c, Step(c, s, e), rest, a)) as real
              <= Allowance(BucketFor(c, s, a, e.now).capacity, TopRate(c, s.instances, share), until - e.now)
  {
    FirstChargeFits(c, s, e, a, share);
    var t, spent := Step(c, s, e), AreaCharge(c, s, e, a);
    var full, top := BucketFor(c, s, a, e.now).capacity, TopRate(c, s.instances, share);
    hide *;
    BucketCoversTheRun(c, t, rest, a, share, until);
    AllowanceIsAdditive(t.areaBuckets[a].tokens, spent, full, top, until - e.now);
  }

  /** Over any run that leaves the roster and this area's share alone, from a charge to the area to readings no
      later than `until`: what the area is charged is at most one full bucket of its own and its share of the
      instance's share of the time between. */
  lemma AreaSpendIsBounded(c: Config, s: State, events: seq<Event>, a: AreaTag, share: real, until: int)
    requires Ready(c) && Valid(s) && Capped(s, a, share)
    requires forall e :: e in events ==> Keeps(e, a, share) && ReadBy(e, until)
    requires events != [] && Sends(c, s, events[0]) && events[0].area == Some(a)
    requires a in s.areaBuckets ==> s.areaBuckets[a].last <= events[0].now
    ensures AreaTotal(c, s, events, a) as real
              <= Allowance(BucketFor(c, s, a, events[0].now).capacity, TopRate(c, s.instances, share),
                until - events[0].now)
  {
    hide Keeps, ReadBy, Step, AreaCharge, Allowance, BucketFor, TopRate, BucketsFit;
    FirstAndRest(c, s, events[0], events[1..], a, share, until);
  }

  lemma FirstSend(c: Config, s: State, e: Event, a: AreaTag)
    requires Ready(c) && Valid(s) && a in s.areaShares && Sends(c, s, e) && e.area == Some(a)
    ensures a in Step(c, s, e).areaBuckets
    ensures var b := BucketFor(c, s, a, e.now);
            Step(c, s, e).areaBuckets[a] == b.(tokens := b.tokens - AreaCharge(c, s, e, a))
  {
    hide Charge, Judge, BucketFor, Cost, BucketsFit;
    ChargeSettlesArea(c, s, e.checked, e.now, e.size, e.rank, e.area, a);
  }

  /** Reading the caps again never refills an area they still name, and leaves its bucket alone when the share
      is the same; an area they drop loses its bucket, so naming it again later starts it full. */
  lemma RecapNeverRefills(c: Config, s: State, shares: map<AreaTag, real>, a: AreaTag, again: map<AreaTag, real>,
                          now: int)
    requires Ready(c) && Valid(s) && a in s.areaBuckets
    ensures var t := Recapped(c, s, shares);
            if a in Positive(shares) then
              && a in t.areaBuckets && t.areaBuckets[a].tokens <= s.areaBuckets[a].tokens
              && (shares[a] == s.areaShares[a] ==> t.areaBuckets[a] == s.areaBuckets[a])
            else
              && a !in t.areaBuckets
              && (a in Positive(again) && Valid(Recapped(c, t, again)) ==>
                    var b := BucketFor(c, Recapped(c, t, again), a, now);
                    b.tokens == b.capacity == AreaCapacity(c, s.capacity, s.r, again[a]))
  {
    hide AreaCapacity, Accrued, AreaRate;
  }
}
