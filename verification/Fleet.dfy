/** What a whole fleet may spend: instances that each know how many they are divide one ceiling between them. */
module Fleet {
  import opened Bytes
  import opened Rolling
  import opened Governor
  import opened Spending
  import opened AreaSpending

  lemma DividedAndMultiplied(x: real, n: real)
    requires n > 0.0
    ensures x / n * n == x
  {
  }

  /** So many instances' slices are together the ceiling, exactly. */
  lemma SlicesMakeTheCeiling(c: Config, instances: int)
    requires instances >= 1
    ensures ShareFraction(c, instances) * instances as real == c.ceilingPercent / 100.0
  {
    DividedAndMultiplied(c.ceilingPercent / 100.0, instances as real);
  }

  /** A penalty of p leaves one p-th of the slice, and of an area's part of it. */
  lemma PenaltyDivides(c: Config, instances: int, penalty: real, share: real)
    requires instances >= 1 && penalty >= 1.0
    ensures Rate(c, instances, penalty) * penalty == ShareFraction(c, instances)
    ensures AreaRate(c, instances, penalty, share) * penalty == ShareFraction(c, instances) * share
  {
    DividedAndMultiplied(ShareFraction(c, instances), penalty);
    DividedAndMultiplied(ShareFraction(c, instances) * share, penalty);
  }

  // One instance: its settings, the state it starts from and what happens to it.
  datatype Node = Node(c: Config, s: State, events: seq<Event>)

  // A run with a roster of this many and this ceiling, from a reading no earlier than `from` to readings no later
  // than `until`.
  ghost predicate Takes(d: Node, instances: int, ceiling: real, from: int, until: int) {
    && Ready(d.c) && Valid(d.s) && d.s.instances == instances && d.c.ceilingPercent == ceiling
    && (forall e :: e in d.events ==> !e.Roster? && ReadBy(e, until))
    && d.events != [] && FirstRead(d.events[0]).Some? && Max(from, d.s.last) <= FirstRead(d.events[0]).value
  }

  ghost function Charged(d: Node): int {
    if Ready(d.c) && Valid(d.s) then Run(d.c, d.s, d.events).stats.charged - d.s.stats.charged else 0
  }

  ghost predicate AllTake(fleet: seq<Node>, instances: int, ceiling: real, from: int, until: int) {
    forall d :: d in fleet ==> Takes(d, instances, ceiling, from, until)
  }

  ghost function AllCharged(fleet: seq<Node>): int {
    if fleet == [] then 0 else AllCharged(fleet[..|fleet| - 1]) + Charged(fleet[|fleet| - 1])
  }

  ghost function Capacities(fleet: seq<Node>): int {
    if fleet == [] then 0 else Capacities(fleet[..|fleet| - 1]) + fleet[|fleet| - 1].s.capacity
  }

  function Slices(n: nat, slice: real, time: int): real {
    n as real * (slice * time as real)
  }

  lemma OneMoreSlice(n: nat, slice: real, time: int, capacity: int)
    requires n > 0
    ensures Slices(n, slice, time) + capacity as real == Slices(n - 1, slice, time) + Allowance(capacity, slice, time)
  {
  }

  lemma {:induction false} NodesTakeSlices(fleet: seq<Node>, instances: int, ceiling: real, from: int, until: int)
    requires instances >= 1 && AllTake(fleet, instances, ceiling, from, until)
    ensures AllCharged(fleet) as real <=
            Capacities(fleet) as real + Slices(|fleet|, SliceOfCeiling(ceiling, instances), until - from)
  {
    hide Takes, Charged, Slices, SliceOfCeiling, Allowance;
    if fleet == [] {
      NoSlices(SliceOfCeiling(ceiling, instances), until - from);
    } else {
      var init, last := fleet[..|fleet| - 1], fleet[|fleet| - 1];
      NodesTakeSlices(init, instances, ceiling, from, until);
      NodeTakesASlice(last, instances, ceiling, from, until);
      OneMoreSlice(|fleet|, SliceOfCeiling(ceiling, instances), until - from, last.s.capacity);
    }
  }

  lemma NoSlices(slice: real, time: int)
    ensures Slices(0, slice, time) == 0.0
  {
  }

  lemma NodeTakesASlice(d: Node, instances: int, ceiling: real, from: int, until: int)
    requires instances >= 1 && Takes(d, instances, ceiling, from, until)
    ensures Charged(d) as real <= Allowance(d.s.capacity, SliceOfCeiling(ceiling, instances), until - from)
  {
    assert ShareFraction(d.c, instances) == SliceOfCeiling(ceiling, instances);
    var first := FirstRead(d.events[0]).value;
    ShareIsPositive(d.c, instances);
    hide Run, ShareFraction, ReadBy, SliceOfCeiling, Allowance, FirstRead;
    SpendIsBounded(d.c, d.s, d.events, first, until);
    MoreTimeAllowsMore(d.s.capacity, SliceOfCeiling(ceiling, instances), until - first, until - from);
  }

  lemma MoreTimeAllowsMore(tokens: int, rate: real, time: int, more: int)
    requires rate >= 0.0 && time <= more
    ensures Allowance(tokens, rate, time) <= Allowance(tokens, rate, more)
  {
    MulAtMost(rate, time as real, more as real);
  }

  function SliceOfCeiling(ceiling: real, instances: int): real
    requires instances >= 1
  {
    ceiling / 100.0 / instances as real
  }

  // The ceiling's part of a span of time.
  function UnderTheCeiling(ceiling: real, time: int): real {
    ceiling / 100.0 * time as real
  }

  lemma NoMoreThanTheCeiling(n: nat, instances: int, ceiling: real, time: nat)
    requires n <= instances && instances >= 1 && ceiling > 0.0
    ensures Slices(n, SliceOfCeiling(ceiling, instances), time) <= UnderTheCeiling(ceiling, time)
  {
    var slice, t := SliceOfCeiling(ceiling, instances), time as real;
    DividedAndMultiplied(ceiling / 100.0, instances as real);
    hide SliceOfCeiling;
    assert slice * instances as real == ceiling / 100.0;
    SliceIsPositive(slice, instances as real);
    MulAtMost(slice * t, n as real, instances as real);
    Regroup(n as real, slice, t);
    Regroup(instances as real, slice, t);
  }

  lemma SliceIsPositive(slice: real, n: real)
    requires n > 0.0 && slice * n > 0.0
    ensures slice > 0.0
  {
  }

  lemma Regroup(n: real, slice: real, t: real)
    ensures n * (slice * t) == slice * n * t == slice * t * n
  {
  }

  lemma ReadingsSpan(d: Node, instances: int, ceiling: real, from: int, until: int)
    requires Takes(d, instances, ceiling, from, until)
    ensures from <= until
  {
    ReadingsAgree(d.events[0], FirstRead(d.events[0]).value, until);
  }

  /** However many instances there are, if each counts them all, together they never charge more than their full
      buckets and the ceiling's part of the time: the ceiling is the fleet's, not the instance's. */
  lemma FleetStaysUnderTheCeiling(fleet: seq<Node>, instances: int, ceiling: real, from: int, until: int)
    requires 1 <= |fleet| <= instances && ceiling > 0.0 && AllTake(fleet, instances, ceiling, from, until)
    ensures AllCharged(fleet) as real <= Capacities(fleet) as real + UnderTheCeiling(ceiling, until - from)
  {
    ReadingsSpan(fleet[0], instances, ceiling, from, until);
    hide *;
    NodesTakeSlices(fleet, instances, ceiling, from, until);
    NoMoreThanTheCeiling(|fleet|, instances, ceiling, until - from);
  }

  // ---- one area over the fleet -------------------------------------------------------------------------------

  // The same, with the area capped at this share throughout, from a packet charged to it.
  ghost predicate TakesFor(d: Node, a: AreaTag, share: real, instances: int, ceiling: real, from: int, until: int) {
    && Ready(d.c) && Valid(d.s) && d.s.instances == instances && d.c.ceilingPercent == ceiling && Capped(d.s, a, share)
    && (forall e :: e in d.events ==> Keeps(e, a, share) && ReadBy(e, until))
    && d.events != [] && Sends(d.c, d.s, d.events[0]) && d.events[0].area == Some(a) && from <= d.events[0].now
    && (a in d.s.areaBuckets ==> d.s.areaBuckets[a].last <= d.events[0].now)
  }

  ghost predicate AllTakeFor(fleet: seq<Node>, a: AreaTag, share: real, instances: int, ceiling: real, from: int,
                             until: int)
  {
    forall d :: d in fleet ==> TakesFor(d, a, share, instances, ceiling, from, until)
  }

  // What a node charges to the area, and how much its bucket for it can hold.
  ghost function ChargedFor(d: Node, a: AreaTag): int {
    if Ready(d.c) && Valid(d.s) then AreaTotal(d.c, d.s, d.events, a) else 0
  }

  ghost function RoomFor(d: Node, a: AreaTag): int {
    if Ready(d.c) && Valid(d.s) && a in d.s.areaShares && d.events != [] && d.events[0].Send?
    then BucketFor(d.c, d.s, a, d.events[0].now).capacity else 0
  }

  ghost function AllChargedFor(fleet: seq<Node>, a: AreaTag): int {
    if fleet == [] then 0 else AllChargedFor(fleet[..|fleet| - 1], a) + ChargedFor(fleet[|fleet| - 1], a)
  }

  ghost function AllRoomFor(fleet: seq<Node>, a: AreaTag): int {
    if fleet == [] then 0 else AllRoomFor(fleet[..|fleet| - 1], a) + RoomFor(fleet[|fleet| - 1], a)
  }

  lemma PartOfASlice(ceiling: real, instances: int, share: real)
    requires instances >= 1
    ensures SliceOfCeiling(ceiling, instances) * share == SliceOfCeiling(ceiling * share, instances)
  {
    var n := instances as real;
    QuotientTimes(ceiling / 100.0, n, share);
    assert ceiling * share / 100.0 == ceiling / 100.0 * share;
  }

  lemma QuotientTimes(x: real, n: real, s: real)
    requires n > 0.0
    ensures x / n * s == x * s / n
  {
    var q := x / n;
    assert q * n == x;
    assert q * s * n == x * s;
    DividedAndMultiplied(x * s, n);
    SameProduct(q * s, x * s / n, n);
  }

  lemma SameProduct(a: real, b: real, n: real)
    requires n > 0.0 && a * n == b * n
    ensures a == b
  {
  }

  lemma NodeTakesItsPart(d: Node, a: AreaTag, share: real, instances: int, ceiling: real, from: int, until: int)
    requires instances >= 1 && TakesFor(d, a, share, instances, ceiling, from, until)
    ensures ChargedFor(d, a) as real <= Allowance(RoomFor(d, a), SliceOfCeiling(ceiling * share, instances),
            until - from)
  {
    PartOfASlice(ceiling, instances, share);
    assert TopRate(d.c, instances, share) == SliceOfCeiling(ceiling * share, instances);
    TopRateIsPositive(d.c, instances, share);
    hide ShareFraction, TopRate, ReadBy, Keeps, SliceOfCeiling, Allowance, Sends, BucketFor, AreaTotal;
    AreaSpendIsBounded(d.c, d.s, d.events, a, share, until);
    MoreTimeAllowsMore(RoomFor(d, a), SliceOfCeiling(ceiling * share, instances), until - d.events[0].now,
      until - from);
  }

  lemma {:induction false} NodesTakeTheirPart(fleet: seq<Node>, a: AreaTag, share: real, instances: int, ceiling: real,
                                              from: int, until: int)
    requires instances >= 1 && AllTakeFor(fleet, a, share, instances, ceiling, from, until)
    ensures AllChargedFor(fleet, a) as real <=
            AllRoomFor(fleet, a) as real + Slices(|fleet|, SliceOfCeiling(ceiling * share, instances), until - from)
  {
    hide TakesFor, ChargedFor, RoomFor, Slices, SliceOfCeiling, Allowance;
    if fleet == [] {
      NoSlices(SliceOfCeiling(ceiling * share, instances), until - from);
    } else {
      var init, last := fleet[..|fleet| - 1], fleet[|fleet| - 1];
      NodesTakeTheirPart(init, a, share, instances, ceiling, from, until);
      NodeTakesItsPart(last, a, share, instances, ceiling, from, until);
      OneMoreSlice(|fleet|, SliceOfCeiling(ceiling * share, instances), until - from, RoomFor(last, a));
    }
  }

  lemma PartIsPositive(ceiling: real, share: real)
    requires ceiling > 0.0 && share > 0.0
    ensures ceiling * share > 0.0
  {
  }

  /** An area capped at a share is capped over the fleet: together the instances never charge it more than their full
      buckets for it and its share of the ceiling's part of the time. */
  lemma AreaStaysUnderItsShare(fleet: seq<Node>, a: AreaTag, share: real, instances: int, ceiling: real, from: int,
                               until: int)
    requires 1 <= |fleet| <= instances && ceiling > 0.0 && AllTakeFor(fleet, a, share, instances, ceiling, from, until)
    ensures AllChargedFor(fleet, a) as real <=
            AllRoomFor(fleet, a) as real + UnderTheCeiling(ceiling * share, until - from)
  {
    AreaReadingsSpan(fleet[0], a, share, instances, ceiling, from, until);
    PartIsPositive(ceiling, share);
    hide *;
    NodesTakeTheirPart(fleet, a, share, instances, ceiling, from, until);
    NoMoreThanTheCeiling(|fleet|, instances, ceiling * share, until - from);
  }

  lemma AreaReadingsSpan(d: Node, a: AreaTag, share: real, instances: int, ceiling: real, from: int, until: int)
    requires TakesFor(d, a, share, instances, ceiling, from, until)
    ensures from <= until && share > 0.0
  {
    assert ReadBy(d.events[0], until);
  }

  // ---- at the defaults -------------------------------------------------------------------------------------------

  /** A bucket left to its own size holds what an idle hour accrues, or three full packets if that is more. */
  lemma BucketIsAnHour(c: Config, instances: int, r: real)
    requires instances >= 1 && c.burst <= 0
    ensures Burst(c, instances, r) == Max(Accrued(HOUR, Rate(c, instances, 1.0)), 3 * Cost(c, r, FULL_PACKET))
  {
    DividedAndMultiplied(ShareFraction(c, instances), 1.0);
    hide ShareFraction, Cost;
    assert Rate(c, instances, 1.0) == ShareFraction(c, instances);
    Commutes(HOUR as real, ShareFraction(c, instances));
  }

  lemma Commutes(a: real, b: real)
    ensures a * b == b * a
  {
  }

  /** Settings left out give five percent among fifty: 3.6 seconds of channel time an hour for each. */
  lemma HourOfOneInFifty(raw: Config)
    requires raw.ceilingPercent <= 0.0 && raw.instances < 1
    ensures var c := Clamped(raw);
            c.instances == 50 && Accrued(HOUR, Rate(c, c.instances, 1.0)) == 3_600_000_000
  {
    var c := Clamped(raw);
    assert ShareFraction(c, 50) == 0.001;
    assert Rate(c, 50, 1.0) == 0.001;
    hide Rate, ShareFraction;
    assert HOUR as real * 0.001 == 3_600_000_000.0;
  }

  /** A packet that every one of a whole number of hops repeats costs its airtime that many times. */
  lemma CostOfWholeHops(c: Config, hops: nat, n: nat)
    ensures Cost(c, hops as real, n) == hops * c.air(n)
  {
    assert c.air(n) as real * hops as real == (hops * c.air(n)) as real;
  }

  lemma WholePart(capacity: nat, n: nat)
    requires n >= 1
    ensures (1.0 / n as real * capacity as real).Floor == capacity / n
  {
    var q := capacity as real / n as real;
    assert q * n as real == capacity as real;
    QuotientTimes(1.0, n as real, capacity as real);
    FloorIs(capacity, n, q);
  }

  lemma FloorIs(x: nat, n: nat, q: real)
    requires n >= 1 && q * n as real == x as real
    ensures q.Floor == x / n
  {
    var d, r := x / n, x % n;
    assert x == d * n + r;
    AsReals(d, n);
    assert (q - d as real) * n as real == r as real;
    Between(q - d as real, n as real, r as real);
  }

  lemma AsReals(a: int, b: int)
    ensures (a * b) as real == a as real * b as real
  {
  }

  lemma Between(y: real, n: real, r: real)
    requires n > 0.0 && y * n == r && 0.0 <= r < n
    ensures 0.0 <= y < 1.0
  {
    if y < 0.0 {
      SignOf(y, n);
    }
    if y >= 1.0 {
      MulAtMost(n, 1.0, y);
    }
  }

  lemma SignOf(y: real, n: real)
    requires n > 0.0 && y < 0.0
    ensures y * n < 0.0
  {
  }

  /** An area's bucket is its part of the node's, or room for one full packet if that is more: of one n-th, the n-th
      part. */
  lemma AreaBucketIsItsPart(c: Config, capacity: nat, r: real, n: nat)
    requires n >= 1
    ensures AreaCapacity(c, capacity, r, 1.0 / n as real) == Max(capacity / n, Cost(c, r, FULL_PACKET))
  {
    hide Cost;
    WholePart(capacity, n);
  }

  /** Settings out of range are replaced: a ceiling by five percent or at most fifteen, a roster by fifty, a multiplier
      by four. */
  lemma SettingsAreReplaced(raw: Config)
    ensures var c := Clamped(raw);
            && c.ceilingPercent == (if raw.ceilingPercent <= 0.0 then 5.0
                                    else if raw.ceilingPercent > 15.0 then 15.0 else raw.ceilingPercent)
            && c.instances == (if raw.instances >= 1 then raw.instances else 50)
            && c.floodMultiplier == (if raw.floodMultiplier >= 1.0 then raw.floodMultiplier else 4.0)
    ensures (forall k :: raw.air(k) > 0) ==> Ready(Clamped(raw))
  {
  }
}
