/** What the governor's arithmetic adds up to: invariants, spending bounds over whole runs, the regional
    transmit limit, and who is admitted in the end. */
module Spending {
  import opened Bytes
  import opened Rolling
  import opened Governor

  // ---- arithmetic ------------------------------------------------------------------------------------------

  lemma MulAtMost(k: real, a: real, b: real)
    requires 0.0 <= k && a <= b
    ensures k * a <= k * b
  {
  }

  lemma ShareIsPositive(c: Config, instances: int)
    requires Ready(c) && instances >= 1
    ensures 0.0 < ShareFraction(c, instances) <= 0.15
  {
    var n := instances as real;
    var x := c.ceilingPercent / 100.0;
    assert 0.0 < x <= 0.15;
    assert x / n * n == x;
    if x / n <= 0.0 {
      MulAtMost(n, x / n, 0.0);
      assert false;
    }
    MulAtMost(x / n, 1.0, n);
  }

  lemma DividedByPenalty(x: real, p: real)
    requires 0.0 < x && 1.0 <= p
    ensures 0.0 < x / p <= x
  {
    assert x / p * p == x;
    if x / p <= 0.0 {
      MulAtMost(p, x / p, 0.0);
      assert false;
    }
    MulAtMost(x / p, 1.0, p);
  }

  lemma RateIsAtMostTheShare(c: Config, s: State)
    requires Ready(c) && Valid(s)
    ensures 0.0 < Rate(c, s.instances, s.penalty) <= ShareFraction(c, s.instances)
  {
    ShareIsPositive(c, s.instances);
    DividedByPenalty(ShareFraction(c, s.instances), s.penalty);
  }

  lemma AreaRateIsAtMostItsShare(c: Config, s: State, share: real)
    requires Ready(c) && Valid(s) && share > 0.0
    ensures 0.0 < AreaRate(c, s.instances, s.penalty, share) <= ShareFraction(c, s.instances) * share
  {
    ShareIsPositive(c, s.instances);
    var x := ShareFraction(c, s.instances);
    hide ShareFraction;
    assert 0.0 < x * share;
    DividedByPenalty(x * share, s.penalty);
    assert AreaRate(c, s.instances, s.penalty, share) == x * share / s.penalty;
  }

  lemma AccruedIsAtMost(elapsed: int, rate: real, top: real)
    requires 0 <= elapsed && 0.0 <= rate <= top
    ensures 0 <= Accrued(elapsed, rate) && Accrued(elapsed, rate) as real <= top * elapsed as real
  {
    MulAtMost(elapsed as real, 0.0, rate);
    MulAtMost(elapsed as real, rate, top);
  }

  lemma CostIsAtLeastTheAirtime(c: Config, r: real, n: nat)
    requires Ready(c) && r >= 1.0
    ensures Cost(c, r, n) >= c.air(n) >= 1
  {
    MulAtMost(c.air(n) as real, 1.0, r);
  }

  lemma HeldFits(rank: Class, capacity: int)
    requires capacity >= 0
    ensures 0 <= Held(rank, capacity) <= capacity
  {
    MulAtMost(capacity as real, 0.0, Reserve(rank));
    MulAtMost(capacity as real, Reserve(rank), 1.0);
  }

  lemma HeldFollowsReserve(low: Class, high: Class, capacity: int)
    requires capacity >= 0 && Reserve(low) <= Reserve(high)
    ensures Held(low, capacity) <= Held(high, capacity)
  {
    MulAtMost(capacity as real, Reserve(low), Reserve(high));
  }

  // ---- one operation ---------------------------------------------------------------------------------------

  lemma SameBucketsFit(s: State, t: State)
    requires BucketsFit(s) && s.areaShares == t.areaShares && s.areaBuckets == t.areaBuckets
    ensures BucketsFit(t)
  {
  }

  lemma StartIsValid(raw: Config, now: int)
    requires forall n :: raw.air(n) > 0
    ensures Ready(Clamped(raw)) && Valid(Start(raw, now))
  {
    var c := Clamped(raw);
    BurstIsPositive(c, c.instances, c.floodMultiplier);
  }

  lemma BurstIsPositive(c: Config, instances: int, r: real)
    requires Ready(c) && instances >= 1 && r >= 1.0
    ensures Burst(c, instances, r) >= 1
    ensures c.burst <= 0 ==> Burst(c, instances, r) >= 3 * Cost(c, r, FULL_PACKET)
  {
    CostIsAtLeastTheAirtime(c, r, FULL_PACKET);
  }

  lemma RefillKeepsValid(c: Config, s: State, now: int)
    requires Ready(c) && Valid(s)
    ensures Valid(Refill(c, s, now))
    ensures var t := Refill(c, s, now);
            && t.last == Max(s.last, now) && t == s.(last := t.last, tokens := t.tokens, localTX := t.localTX)
            && s.tokens <= t.tokens
            && t.tokens as real <= s.tokens as real + ShareFraction(c, s.instances) * (t.last - s.last) as real
  {
    hide ShareFraction, Rate, Accrued;
    if now > s.last {
      RateIsAtMostTheShare(c, s);
      AccruedIsAtMost(now - s.last, Rate(c, s.instances, s.penalty), ShareFraction(c, s.instances));
    }
  }

  /** The verdict, and what a verdict leaves: only the refill and a pruned log. */
  lemma JudgeOnlyRefills(c: Config, s: State, now: int, n: nat, rank: Class)
    requires Ready(c) && Valid(s)
    ensures var (t, v) := Judge(c, s, now, n, rank);
            && Valid(t) && t == Refill(c, s, now).(localTX := t.localTX)
            && (v == Admit ==>
                  !c.quiet(now) && (Silenced(t) ==> rank == DM) && DutyAllows(c, t, n) && Affords(c, t, n, rank))
  {
    hide ShareFraction, Rate, Accrued, Cost, Held, BucketsFit;
    RefillKeepsValid(c, s, now);
    SameBucketsFit(Refill(c, s, now), Judge(c, s, now, n, rank).0);
  }

  lemma BucketForIsFit(c: Config, s: State, a: AreaTag, now: int)
    requires Ready(c) && Valid(s) && a in s.areaShares
    ensures var b := BucketFor(c, s, a, now); b.share == s.areaShares[a] && 0 <= b.tokens <= b.capacity
  {
    hide ShareFraction, AreaRate, Accrued;
    CostIsAtLeastTheAirtime(c, s.r, FULL_PACKET);
    if a in s.areaBuckets && now > s.areaBuckets[a].last {
      var b := s.areaBuckets[a];
      AreaRateIsAtMostItsShare(c, s, b.share);
      AccruedIsAtMost(now - b.last, AreaRate(c, s.instances, s.penalty, b.share),
        ShareFraction(c, s.instances) * b.share);
    }
  }

  lemma BillKeepsValid(c: Config, s: State, now: int, n: nat, area: Option<AreaTag>)
    requires Ready(c) && Valid(s) && Cost(c, s.r, n) <= s.tokens
    ensures Valid(Billed(c, s, now, n, area).0)
  {
    hide BucketFor, Cost;
    CostIsAtLeastTheAirtime(c, s.r, n);
    if IsCapped(s, area) {
      BucketForIsFit(c, s, area.value, now);
    }
  }

  // Charging moves exactly the cost out of the bucket and into the count of what was charged.
  lemma BillSettles(c: Config, s: State, now: int, n: nat, area: Option<AreaTag>)
    requires s.instances >= 1 && s.penalty >= 1.0
    ensures var (t, ok) := Billed(c, s, now, n, area);
            var cost := if ok then Cost(c, s.r, n) else 0;
            && t.tokens == s.tokens - cost && t.stats.charged == s.stats.charged + cost
            && t.stats.allowed == s.stats.allowed + (if ok then 1 else 0)
            && t.localTX == s.localTX + (if ok then [Entry(now, c.air(n))] else [])
            && t == s.(tokens := t.tokens, localTX := t.localTX, sentPackets := t.sentPackets,
                       areaBuckets := t.areaBuckets,
                       stats := t.stats)
  {
    hide BucketFor, Cost;
  }

  /** A refusal, by a rule or by the area, charges nothing; a charge leaves the class's reserve standing. */
  lemma ChargeSettles(c: Config, s: State, checked: int, now: int, n: nat, rank: Class, area: Option<AreaTag>)
    requires Ready(c) && Valid(s)
    ensures var (t, ok) := Charge(c, s, checked, now, n, rank, area);
            var before := Refill(c, s, checked);
            var cost := if ok then Cost(c, s.r, n) else 0;
            && Valid(t)
            && t == before.(tokens := before.tokens - cost, localTX := t.localTX, sentPackets := t.sentPackets,
                            areaBuckets := t.areaBuckets, stats := t.stats)
            && t.stats.charged == s.stats.charged + cost
            && t.stats.allowed == s.stats.allowed + (if ok then 1 else 0)
            && (ok ==> t.tokens >= Held(rank, s.capacity))
  {
    hide BucketFor, Cost, Held, BucketsFit, Refill, Billed;
    JudgeOnlyRefills(c, s, checked, n, rank);
    RefillKeepsValid(c, s, checked);
    HeldFits(rank, s.capacity);
    var (s1, v) := Judge(c, s, checked, n, rank);
    hide Judge;
    if v == Admit {
      BillSettles(c, s1, now, n, area);
      BillKeepsValid(c, s1, now, n, area);
    } else {
      SameBucketsFit(s1, Charge(c, s, checked, now, n, rank, area).0);
    }
  }

  lemma SameBucket(c: Config, s: State, t: State, a: AreaTag, now: int)
    requires s.instances >= 1 && s.penalty >= 1.0 && a in s.areaShares
    requires t == s.(last := t.last, tokens := t.tokens, localTX := t.localTX)
    ensures BucketFor(c, s, a, now) == BucketFor(c, t, a, now)
  {
    hide AreaRate, Accrued;
  }

  // What a charge does to the bucket of area a.
  lemma ChargeSettlesArea(c: Config, s: State, checked: int, now: int, n: nat, rank: Class, area: Option<AreaTag>,
                          a: AreaTag)
    requires Ready(c) && Valid(s) && a in s.areaShares
    ensures var (t, ok) := Charge(c, s, checked, now, n, rank, area);
            var b := BucketFor(c, s, a, now);
            if area != Some(a) || Judge(c, s, checked, n, rank).1 != Admit then
              !(ok && area == Some(a)) && (a in s.areaBuckets <==> a in t.areaBuckets)
              && (a in s.areaBuckets ==> t.areaBuckets[a] == s.areaBuckets[a])
            else
              a in t.areaBuckets && t.areaBuckets[a] == (if ok then b.(tokens := b.tokens - Cost(c, s.r, n)) else b)
  {
    hide Cost, Refill, BucketFor;
    JudgeOnlyRefills(c, s, checked, n, rank);
    RefillKeepsValid(c, s, checked);
    SameBucket(c, s, Judge(c, s, checked, n, rank).0, a, now);
    hide Judge;
  }

  lemma RecapKeepsValid(c: Config, s: State, shares: map<AreaTag, real>)
    requires Ready(c) && Valid(s)
    ensures Valid(Recapped(c, s, shares))
  {
    hide Cost;
    CostIsAtLeastTheAirtime(c, s.r, FULL_PACKET);
  }

  lemma EchoKeepsValid(c: Config, s: State)
    requires Valid(s)
    ensures Valid(Echoed(c, s)) && Echoed(c, s).r >= s.r
    ensures var t := Echoed(c, s); t == s.(echoes := t.echoes, r := t.r)
  {
  }

  lemma DivideKeepsValid(c: Config, s: State, now: int, n: int)
    requires Ready(c) && Valid(s)
    ensures Valid(Divided(c, s, now, n)) && Divided(c, s, now, n).r == s.r
  {
    hide Burst, BucketsFit, Refill;
    RefillKeepsValid(c, s, now);
    if n >= 1 {
      BurstIsPositive(c, n, s.r);
      SameBucketsFit(Refill(c, s, now), Divided(c, s, now, n));
    }
  }

  // ---- runs ------------------------------------------------------------------------------------------------

  // Asking (Would) and polling (Budget) charge nothing but still refill.
  datatype Event =
    | Send(checked: int, now: int, size: nat, rank: Class, area: Option<AreaTag>)
    | Ask(now: int, size: nat, rank: Class)
    | Poll(now: int)
    | Hear(now: int, util: real)
    | Echo
    | Roster(now: int, n: int)
    | Caps(shares: map<AreaTag, real>)

  function Step(c: Config, s: State, e: Event): State
    requires s.instances >= 1 && s.penalty >= 1.0
  {
    match e
    case Send(checked, now, n, rank, area) => Charge(c, s, checked, now, n, rank, area).0
    case Ask(now, n, rank) => Judge(c, s, now, n, rank).0
    case Poll(now) => Refill(c, s, now)
    case Hear(now, util) => Observed(c, s, now, util)
    case Echo => Echoed(c, s)
    case Roster(now, n) => Divided(c, s, now, n)
    case Caps(shares) => Recapped(c, s, shares)
  }

  predicate Sends(c: Config, s: State, e: Event)
    requires s.instances >= 1 && s.penalty >= 1.0
  {
    e.Send? && Charge(c, s, e.checked, e.now, e.size, e.rank, e.area).1
  }

  lemma StepKeepsValid(c: Config, s: State, e: Event)
    requires Ready(c) && Valid(s)
    ensures Valid(Step(c, s, e)) && Step(c, s, e).r >= s.r
  {
    hide Charge, Judge, Refill, Recapped, Divided, Echoed, BucketsFit;
    match e
    case Send(checked, now, n, rank, area) =>
      ChargeSettles(c, s, checked, now, n, rank, area);
      RefillKeepsValid(c, s, checked);
    case Ask(now, n, rank) =>
      JudgeOnlyRefills(c, s, now, n, rank);
      RefillKeepsValid(c, s, now);
    case Poll(now) => RefillKeepsValid(c, s, now);
    case Hear(now, util) =>
      RefillKeepsValid(c, s, now);
      SameBucketsFit(Refill(c, s, now), Observed(c, s, now, util));
    case Echo => EchoKeepsValid(c, s);
    case Roster(now, n) => DivideKeepsValid(c, s, now, n);
    case Caps(shares) =>
      RecapKeepsValid(c, s, shares);
      SameR(c, s, shares);
  }

  lemma SameR(c: Config, s: State, shares: map<AreaTag, real>)
    ensures var t := Recapped(c, s, shares); t == s.(areaShares := t.areaShares, areaBuckets := t.areaBuckets)
  {
  }

  function Run(c: Config, s: State, events: seq<Event>): (t: State)
    requires Ready(c) && Valid(s)
    ensures Valid(t) && t.r >= s.r
    decreases |events|
  {
    if events == [] then s
    else
      StepKeepsValid(c, s, events[0]);
      Run(c, Step(c, s, events[0]), events[1..])
  }

  // ---- the spending bound ----------------------------------------------------------------------------------

  // What a bucket holding so many tokens can pay for over a span of time.
  function Allowance(tokens: int, rate: real, elapsed: int): real {
    tokens as real + rate * elapsed as real
  }

  lemma AllowanceIsAdditive(left: int, spent: int, capacity: int, rate: real, elapsed: int)
    requires left + spent <= capacity
    ensures spent as real + Allowance(left, rate, elapsed) <= Allowance(capacity, rate, elapsed)
  {
  }

  // Tokens are only ever moved into the charged total or made by time at no more than the full share.
  ghost predicate Pays(c: Config, s: State, t: State) {
    && s.instances == t.instances >= 1 && s.last <= t.last && s.capacity == t.capacity
    && (t.tokens + t.stats.charged) as real
         <= Allowance(s.tokens + s.stats.charged, ShareFraction(c, s.instances), t.last - s.last)
  }

  lemma StepPays(c: Config, s: State, e: Event)
    requires Ready(c) && Valid(s) && !e.Roster?
    ensures Pays(c, s, Step(c, s, e))
  {
    hide Charge, Judge, Refill, Recapped, Echoed, BucketsFit, ShareFraction;
    match e
    case Send(checked, now, n, rank, area) =>
      ChargeSettles(c, s, checked, now, n, rank, area);
      RefillKeepsValid(c, s, checked);
    case Ask(now, n, rank) =>
      JudgeOnlyRefills(c, s, now, n, rank);
      RefillKeepsValid(c, s, now);
    case Poll(now) => RefillKeepsValid(c, s, now);
    case Hear(now, util) => RefillKeepsValid(c, s, now);
    case Echo => EchoKeepsValid(c, s);
    case Caps(shares) => SameR(c, s, shares);
  }

  lemma PaysOnward(c: Config, s: State, t: State, u: State)
    requires Pays(c, s, t) && Pays(c, t, u)
    ensures Pays(c, s, u)
  {
    hide ShareFraction;
    var share := ShareFraction(c, s.instances);
    assert share * (u.last - s.last) as real == share * (u.last - t.last) as real + share * (t.last - s.last) as real;
  }

  lemma {:induction false} RunPays(c: Config, s: State, events: seq<Event>)
    requires Ready(c) && Valid(s) && forall e :: e in events ==> !e.Roster?
    ensures Pays(c, s, Run(c, s, events))
    decreases |events|
  {
    if events != [] {
      hide Pays, Step, Valid;
      StepKeepsValid(c, s, events[0]);
      StepPays(c, s, events[0]);
      var t := Step(c, s, events[0]);
      RunPays(c, t, events[1..]);
      PaysOnward(c, s, t, Run(c, t, events[1..]));
    } else {
      hide ShareFraction;
    }
  }

  ghost predicate ReadBy(e: Event, until: int) {
    match e
    case Send(checked, now, _, _, _) => checked <= until && now <= until
    case Ask(now, _, _) => now <= until
    case Poll(now) => now <= until
    case Hear(now, _) => now <= until
    case Roster(now, _) => now <= until
    case Echo => true
    case Caps(_) => true
  }

  lemma {:induction false} LastIsARead(c: Config, s: State, events: seq<Event>, until: int)
    requires Ready(c) && Valid(s) && s.last <= until && forall e :: e in events ==> ReadBy(e, until)
    ensures Run(c, s, events).last <= until
    decreases |events|
  {
    if events != [] {
      var e := events[0];
      assert ReadBy(e, until);
      StepKeepsValid(c, s, e);
      if e.Send? {
        ChargeSettles(c, s, e.checked, e.now, e.size, e.rank, e.area);
      } else if e.Ask? {
        JudgeOnlyRefills(c, s, e.now, e.size, e.rank);
      }
      LastIsARead(c, Step(c, s, e), events[1..], until);
    }
  }

  // The reading an event refills at.
  function FirstRead(e: Event): Option<int> {
    match e
    case Send(checked, _, _, _, _) => Some(checked)
    case Ask(now, _, _) => Some(now)
    case Poll(now) => Some(now)
    case Hear(now, _) => Some(now)
    case Roster(now, n) => if n < 1 then None else Some(now)
    case Echo => None
    case Caps(_) => None
  }

  // An event that reads the clock may as well find the bucket already refilled at that reading.
  lemma RefilledFirst(c: Config, s: State, e: Event, now: int)
    requires Ready(c) && Valid(s) && FirstRead(e) == Some(now)
    ensures Valid(Refill(c, s, now)) && Step(c, s, e) == Step(c, Refill(c, s, now), e)
  {
    hide Rate, Accrued, Billed, BucketsFit, DutyAllows, Affords, DutyPruned, Burst, Pruned, Counted;
    RefillKeepsValid(c, s, now);
    assert Refill(c, Refill(c, s, now), now) == Refill(c, s, now);
  }

  lemma PaidWithin(c: Config, s: State, t: State, until: int)
    requires Ready(c) && Valid(s) && Pays(c, s, t) && 0 <= t.tokens && t.last <= until
    ensures (t.stats.charged - s.stats.charged) as real
              <= Allowance(s.tokens, ShareFraction(c, s.instances), until - s.last)
  {
    ShareIsPositive(c, s.instances);
    hide ShareFraction;
    MulAtMost(ShareFraction(c, s.instances), (t.last - s.last) as real, (until - s.last) as real);
  }

  lemma RunIsPaidFor(c: Config, s: State, events: seq<Event>, until: int)
    requires Ready(c) && Valid(s) && s.last <= until && forall e :: e in events ==> !e.Roster? && ReadBy(e, until)
    ensures (Run(c, s, events).stats.charged - s.stats.charged) as real
              <= Allowance(s.tokens, ShareFraction(c, s.instances), until - s.last)
  {
    hide ReadBy, Pays, ShareFraction, Allowance, BucketsFit;
    RunPays(c, s, events);
    LastIsARead(c, s, events, until);
    PaidWithin(c, s, Run(c, s, events), until);
  }

  /** Over any run that leaves the roster alone, from a call at `from` to readings no later than `until`: what
      is charged is at most one full bucket and the instance's share of the time between. */
  lemma SpendIsBounded(c: Config, s: State, events: seq<Event>, from: int, until: int)
    requires Ready(c) && Valid(s) && forall e :: e in events ==> !e.Roster? && ReadBy(e, until)
    requires events != [] && FirstRead(events[0]) == Some(from) && s.last <= from
    ensures (Run(c, s, events).stats.charged - s.stats.charged) as real
              <= Allowance(s.capacity, ShareFraction(c, s.instances), until - from)
  {
    ReadingsAgree(events[0], from, until);
    RefilledFirst(c, s, events[0], from);
    RefillKeepsValid(c, s, from);
    var u := Refill(c, s, from);
    hide Step, ReadBy, BucketsFit, ShareFraction, Allowance, Refill;
    assert Run(c, s, events) == Run(c, u, events);
    hide Run;
    RunIsPaidFor(c, u, events, until);
    AllowanceIsAdditive(u.tokens, 0, s.capacity, ShareFraction(c, s.instances), until - from);
  }

  lemma ReadingsAgree(e: Event, from: int, until: int)
    requires FirstRead(e) == Some(from) && ReadBy(e, until)
    ensures from <= until
  {
  }

  // ---- what the counters say -------------------------------------------------------------------------------------

  function Calls(stats: Stats): nat {
    stats.allowed + stats.budget + stats.quiet + stats.duty + stats.busy + stats.area
  }

  /** Every call is counted once: as allowed if it was, otherwise under the rule that refused it, the area's when the
      node's own rules would have let it pass. */
  lemma EveryCallIsCounted(c: Config, s: State, checked: int, now: int, n: nat, rank: Class, area: Option<AreaTag>)
    requires Ready(c) && Valid(s)
    ensures var ((t, ok), v) := (Charge(c, s, checked, now, n, rank, area), Judge(c, s, checked, n, rank).1);
            && Calls(t.stats) == Calls(s.stats) + 1
            && t.stats.allowed == s.stats.allowed + (if ok then 1 else 0)
            && t.stats.quiet == s.stats.quiet + (if v == Quiet then 1 else 0)
            && t.stats.busy == s.stats.busy + (if v == Busy then 1 else 0)
            && t.stats.duty == s.stats.duty + (if v == Duty then 1 else 0)
            && t.stats.budget == s.stats.budget + (if v == OverBudget then 1 else 0)
            && t.stats.area == s.stats.area + (if v == Admit && !ok then 1 else 0)
  {
    JudgeKeepsStats(c, s, checked, n, rank);
    BilledIsCounted(c, Judge(c, s, checked, n, rank).0, now, n, area);
    hide Judge, Billed;
  }

  lemma BilledIsCounted(c: Config, s: State, now: int, n: nat, area: Option<AreaTag>)
    requires s.instances >= 1 && s.penalty >= 1.0
    ensures var ((t, ok), stats) := (Billed(c, s, now, n, area), s.stats);
            t.stats == if ok then stats.(allowed := stats.allowed + 1, charged := stats.charged + Cost(c, s.r, n))
                       else stats.(area := stats.area + 1)
  {
    hide BucketFor, Cost;
  }

  lemma JudgeKeepsStats(c: Config, s: State, now: int, n: nat, rank: Class)
    requires Ready(c) && Valid(s)
    ensures var t := Judge(c, s, now, n, rank).0;
            t.stats == s.stats && t.instances == s.instances && t.penalty == s.penalty
  {
    hide Rate, Accrued, Pruned, DutyAllows, Affords;
  }
}
