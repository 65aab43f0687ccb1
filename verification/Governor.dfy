/** The airtime governor: a token bucket of channel time with class reserves, a busy-channel penalty, one
    sub-bucket per capped area, and a region's rolling-hour transmit limit. Times and durations are whole
    nanoseconds; rates are exact reals, rounded down wherever a duration is made of one. */
module Governor {
  import opened Bytes
  import R = Rolling
  import opened Rolling

  datatype Class = Control | DM | Forum | FileCatalog | DoorEvent

  // The part of the bucket a class must leave untouched.
  function Reserve(rank: Class): real {
    match rank
    case Control => 0.0
    case DM => 0.10
    case Forum => 0.35
    case FileCatalog => 0.60
    case DoorEvent => 0.70
  }

  const BACKOFF := 25.0
  const SILENCE := 40.0
  const MAX_PENALTY := 32.0
  const FULL_PACKET: nat := 233

  // `air` is the transmit time of a packet of so many bytes, `quiet` the union of the quiet-hour windows.
  datatype Config = Config(
    region: string, ceilingPercent: real, instances: int, floodMultiplier: real, pinned: bool,
    quiet: int -> bool, burst: int, areaShares: map<AreaTag, real>, air: nat -> nat)

  function DutyLimit(region: string): Option<int> {
    if region in {"EU_433", "EU_868", "UA_433", "UA_868"} then Some((0.10 * HOUR as real).Floor) else None
  }

  // Out-of-range settings are replaced, not refused.
  function Clamped(c: Config): Config {
    var ceiling := if c.ceilingPercent <= 0.0 then 5.0 else if c.ceilingPercent > 15.0 then 15.0 else c.ceilingPercent;
    c.(ceilingPercent := ceiling,
       instances := if c.instances < 1 then 50 else c.instances,
       floodMultiplier := if c.floodMultiplier < 1.0 then 4.0 else c.floodMultiplier)
  }

  ghost predicate Ready(c: Config) {
    0.0 < c.ceilingPercent <= 15.0 && c.instances >= 1 && c.floodMultiplier >= 1.0 && forall n :: c.air(n) > 0
  }

  datatype Bucket = Bucket(share: real, tokens: int, capacity: int, last: int)

  datatype Stats = Stats(allowed: nat, budget: nat, quiet: nat, duty: nat, busy: nat, area: nat, charged: int)

  datatype State = State(
    instances: int, tokens: int, capacity: int, last: int, penalty: real, chanUtil: real, haveTelemetry: bool,
    localTX: seq<Entry>, sentPackets: nat, echoes: nat, r: real,
    areaShares: map<AreaTag, real>, areaBuckets: map<AreaTag, Bucket>, stats: Stats)

  datatype Verdict = Admit | Quiet | Busy | Duty | OverBudget

  // ---- arithmetic ------------------------------------------------------------------------------------------

  // One instance's slice of all channel time.
  function ShareFraction(c: Config, instances: int): real
    requires instances >= 1
  {
    c.ceilingPercent / 100.0 / instances as real
  }

  // What one packet costs everybody.
  function Cost(c: Config, r: real, n: nat): int {
    (c.air(n) as real * r).Floor
  }

  function Accrued(elapsed: int, rate: real): int {
    (elapsed as real * rate).Floor
  }

  function Held(rank: Class, capacity: int): int {
    (Reserve(rank) * capacity as real).Floor
  }

  function Burst(c: Config, instances: int, r: real): int
    requires instances >= 1
  {
    if c.burst > 0 then c.burst else Max((ShareFraction(c, instances) * HOUR as real).Floor,
      3 * Cost(c, r, FULL_PACKET))
  }

  // The node's refill rate, and an area's part of it; a busy channel slows both.
  function Rate(c: Config, instances: int, penalty: real): real
    requires instances >= 1 && penalty >= 1.0
  {
    ShareFraction(c, instances) / penalty
  }

  function AreaRate(c: Config, instances: int, penalty: real, share: real): real
    requires instances >= 1 && penalty >= 1.0
  {
    ShareFraction(c, instances) * share / penalty
  }

  function AreaCapacity(c: Config, capacity: int, r: real, share: real): int {
    Max((share * capacity as real).Floor, Cost(c, r, FULL_PACKET))
  }

  // ---- what every operation keeps --------------------------------------------------------------------------

  ghost predicate BucketsFit(s: State) {
    && s.areaBuckets.Keys <= s.areaShares.Keys
    && (forall a :: a in s.areaShares ==> s.areaShares[a] > 0.0)
    && (forall a :: a in s.areaBuckets ==>
          var b := s.areaBuckets[a];
          b.share == s.areaShares[a] && 0 <= b.tokens <= b.capacity)
  }

  ghost predicate Valid(s: State) {
    && s.instances >= 1
    && 0 <= s.tokens <= s.capacity
    && 1.0 <= s.penalty <= MAX_PENALTY
    && 1.0 <= s.r
    && BucketsFit(s)
  }

  // ---- operations ------------------------------------------------------------------------------------------

  function Positive(shares: map<AreaTag, real>): map<AreaTag, real> {
    map a | a in shares && shares[a] > 0.0 :: shares[a]
  }

  function Start(raw: Config, now: int): State {
    var c := Clamped(raw);
    var full := Burst(c, c.instances, c.floodMultiplier);
    State(c.instances, full, full, now, 1.0, 0.0, false, [], 0, 0, c.floodMultiplier, Positive(c.areaShares), map[],
          Stats(0, 0, 0, 0, 0, 0, 0))
  }

  function Refill(c: Config, s: State, now: int): State
    requires s.instances >= 1 && s.penalty >= 1.0
  {
    if now <= s.last then s
    else
      s.(last := now, tokens := Min(s.tokens + Accrued(now - s.last, Rate(c, s.instances, s.penalty)), s.capacity),
         localTX := Pruned(s.localTX, now))
  }

  predicate Silenced(s: State) {
    s.haveTelemetry && s.chanUtil >= SILENCE
  }

  predicate Affords(c: Config, s: State, n: nat, rank: Class) {
    s.tokens >= Cost(c, s.r, n) + Held(rank, s.capacity)
  }

  // The duty test prunes the log it sums.
  function DutyPruned(c: Config, s: State, now: int): State {
    if DutyLimit(c.region).None? then s else s.(localTX := Pruned(s.localTX, now))
  }

  predicate DutyAllows(c: Config, s: State, n: nat) {
    DutyLimit(c.region).None? || Total(s.localTX) + c.air(n) <= DutyLimit(c.region).value
  }

  function Judge(c: Config, s: State, now: int, n: nat, rank: Class): (State, Verdict)
    requires s.instances >= 1 && s.penalty >= 1.0
  {
    var s1 := Refill(c, s, now);
    if c.quiet(now) then (s1, Quiet)
    else if Silenced(s1) && rank != DM then (s1, Busy)
    else
      var s2 := DutyPruned(c, s1, now);
      (s2, if !DutyAllows(c, s2, n) then Duty else if Affords(c, s2, n, rank) then Admit else OverBudget)
  }

  function Counted(stats: Stats, v: Verdict): Stats {
    match v
    case Admit => stats
    case Quiet => stats.(quiet := stats.quiet + 1)
    case Busy => stats.(busy := stats.busy + 1)
    case Duty => stats.(duty := stats.duty + 1)
    case OverBudget => stats.(budget := stats.budget + 1)
  }

  // A new bucket starts full; an old one accrues its share of the node's rate.
  function BucketFor(c: Config, s: State, area: AreaTag, now: int): Bucket
    requires s.instances >= 1 && s.penalty >= 1.0 && area in s.areaShares
  {
    var share := s.areaShares[area];
    if area !in s.areaBuckets then
      var full := AreaCapacity(c, s.capacity, s.r, share);
      Bucket(share, full, full, now)
    else
      var b := s.areaBuckets[area];
      if now <= b.last then b
      else
        b.(last := now, tokens := Min(b.tokens + Accrued(now - b.last, AreaRate(c, s.instances, s.penalty, b.share)),
          b.capacity))
  }

  function Sent(c: Config, s: State, now: int, n: nat): State {
    var cost := Cost(c, s.r, n);
    s.(tokens := s.tokens - cost, localTX := s.localTX + [Entry(now, c.air(n))], sentPackets := s.sentPackets + 1,
       stats := s.stats.(allowed := s.stats.allowed + 1, charged := s.stats.charged + cost))
  }

  predicate IsCapped(s: State, area: Option<AreaTag>) {
    area.Some? && area.value in s.areaShares && s.areaShares[area.value] > 0.0
  }

  // The area is asked before anything is charged.
  function Billed(c: Config, s: State, now: int, n: nat, area: Option<AreaTag>): (State, bool)
    requires s.instances >= 1 && s.penalty >= 1.0
  {
    if !IsCapped(s, area) then (Sent(c, s, now, n), true)
    else
      var a, cost := area.value, Cost(c, s.r, n);
      var b := BucketFor(c, s, a, now);
      if b.tokens < cost then
        (s.(areaBuckets := s.areaBuckets[a := b], stats := s.stats.(area := s.stats.area + 1)), false)
      else
        (Sent(c, s.(areaBuckets := s.areaBuckets[a := b.(tokens := b.tokens - cost)]), now, n), true)
  }

  // The clock is read once for the checks and once more for the charge.
  function Charge(c: Config, s: State, checked: int, now: int, n: nat, rank: Class, area: Option<AreaTag>)
    : (State, bool)
    requires s.instances >= 1 && s.penalty >= 1.0
  {
    var (s1, verdict) := Judge(c, s, checked, n, rank);
    if verdict == Admit then Billed(c, s1, now, n, area)
    else (s1.(stats := Counted(s1.stats, verdict)), false)
  }

  function Reshared(c: Config, capacity: int, r: real, b: Bucket, share: real): Bucket {
    if share == b.share then b
    else
      var full := AreaCapacity(c, capacity, r, share);
      Bucket(share, Min(b.tokens, full), full, b.last)
  }

  function Recapped(c: Config, s: State, shares: map<AreaTag, real>): State {
    var kept := Positive(shares);
    s.(areaShares := kept,
       areaBuckets := map a | a in s.areaBuckets && a in kept ::
         Reshared(c, s.capacity, s.r, s.areaBuckets[a], kept[a]))
  }

  function Observed(c: Config, s: State, now: int, util: real): State
    requires s.instances >= 1 && s.penalty >= 1.0
  {
    var s1 := Refill(c, s, now);
    var penalty := if util >= BACKOFF then if s1.penalty * 2.0 > MAX_PENALTY then MAX_PENALTY else s1.penalty * 2.0
                   else if s1.penalty / 2.0 < 1.0 then 1.0 else s1.penalty / 2.0;
    s1.(chanUtil := util, haveTelemetry := true, penalty := penalty)
  }

  function Echoed(c: Config, s: State): State {
    var echoes := s.echoes + 1;
    if c.pinned || s.sentPackets < 20 then s.(echoes := echoes)
    else
      var seen := 1.0 + echoes as real / s.sentPackets as real;
      s.(echoes := echoes, r := if seen > s.r then seen else s.r)
  }

  function Divided(c: Config, s: State, now: int, n: int): State
    requires s.instances >= 1 && s.penalty >= 1.0
  {
    if n < 1 then s
    else
      var s1 := Refill(c, s, now);
      var capacity := Burst(c, n, s1.r);
      s1.(instances := n, capacity := capacity, tokens := Min(s1.tokens, capacity))
  }

  // ---- the governor itself ---------------------------------------------------------------------------------

  class Governor {
    const cfg: Config
    var instances: int
    var tokens: int
    var capacity: int
    var last: int
    var penalty: real
    var chanUtil: real
    var haveTelemetry: bool
    var localTX: seq<Entry>
    var sentPackets: nat
    var echoes: nat
    var r: real
    var areaShares: map<AreaTag, real>
    var areaBuckets: map<AreaTag, Bucket>
    var stats: Stats

    function Value(): State
      reads this
    {
      State(instances, tokens, capacity, last, penalty, chanUtil, haveTelemetry, localTX, sentPackets, echoes, r,
            areaShares, areaBuckets, stats)
    }

    constructor (raw: Config, now: int)
      ensures cfg == Clamped(raw) && Value() == Start(raw, now)
    {
      var c := Clamped(raw);
      var full := Burst(c, c.instances, c.floodMultiplier);
      cfg, instances, r := c, c.instances, c.floodMultiplier;
      tokens, capacity, last, penalty := full, full, now, 1.0;
      chanUtil, haveTelemetry := 0.0, false;
      localTX, sentPackets, echoes := [], 0, 0;
      areaBuckets, stats := map[], Stats(0, 0, 0, 0, 0, 0, 0);
      var shares := OnlyPositive(c.areaShares);
      areaShares := shares;
    }

    static method OnlyPositive(shares: map<AreaTag, real>) returns (kept: map<AreaTag, real>)
      ensures kept == Positive(shares)
    {
      kept := map[];
      var todo := shares.Keys;
      while todo != {}
        invariant todo <= shares.Keys
        invariant forall a :: a in kept <==> a in shares && a !in todo && shares[a] > 0.0
        invariant forall a :: a in kept ==> kept[a] == shares[a]
        decreases todo
      {
        var a :| a in todo;
        todo := todo - {a};
        if shares[a] > 0.0 {
          kept := kept[a := shares[a]];
        }
      }
    }

    method PruneTX(now: int)
      modifies this`localTX
      ensures localTX == Pruned(old(localTX), now)
    {
      localTX := Prune(localTX, now);
    }

    method DoRefill(now: int)
      requires instances >= 1 && penalty >= 1.0
      modifies this`last, this`tokens, this`localTX
      ensures Value() == Refill(cfg, old(Value()), now)
    {
      var elapsed := now - last;
      if elapsed <= 0 {
        return;
      }
      last := now;
      tokens := tokens + Accrued(elapsed, Rate(cfg, instances, penalty));
      if tokens > capacity {
        tokens := capacity;
      }
      PruneTX(now);
    }

    method DutyTest(now: int, air: nat) returns (ok: bool)
      modifies this`localTX
      ensures Value() == DutyPruned(cfg, old(Value()), now)
      ensures ok <==> DutyLimit(cfg.region).None? || Total(localTX) + air <= DutyLimit(cfg.region).value
    {
      var limit := DutyLimit(cfg.region);
      if limit.None? {
        return true;
      }
      PruneTX(now);
      var used := R.Used(localTX);
      ok := used + air <= limit.value;
    }

    method Check(now: int, n: nat, rank: Class) returns (verdict: Verdict)
      requires instances >= 1 && penalty >= 1.0
      modifies this`last, this`tokens, this`localTX
      ensures (Value(), verdict) == Judge(cfg, old(Value()), now, n, rank)
    {
      DoRefill(now);
      if cfg.quiet(now) {
        return Quiet;
      }
      if haveTelemetry && chanUtil >= SILENCE && rank != DM {
        return Busy;
      }
      var air := cfg.air(n);
      var within := DutyTest(now, air);
      if !within {
        return Duty;
      }
      var cost := Cost(cfg, r, n);
      if tokens < cost + Held(rank, capacity) {
        return OverBudget;
      }
      return Admit;
    }

    method FindBucket(area: AreaTag, now: int) returns (b: Option<Bucket>)
      requires instances >= 1 && penalty >= 1.0
      modifies this`areaBuckets
      ensures b.None? <==> area !in areaShares || areaShares[area] <= 0.0
      ensures b.None? ==> areaBuckets == old(areaBuckets)
      ensures b.Some? ==> b.value == BucketFor(cfg, old(Value()), area, now)
                          && areaBuckets == old(areaBuckets)[area := b.value]
    {
      hide AreaCapacity, Accrued, AreaRate;
      if area !in areaShares || areaShares[area] <= 0.0 {
        return None;
      }
      var share := areaShares[area];
      if area !in areaBuckets {
        var full := AreaCapacity(cfg, capacity, r, share);
        var made := Bucket(share, full, full, now);
        areaBuckets := areaBuckets[area := made];
        return Some(made);
      }
      var bucket := areaBuckets[area];
      var elapsed := now - bucket.last;
      if elapsed > 0 {
        bucket := bucket.(last := now,
          tokens := bucket.tokens + Accrued(elapsed, AreaRate(cfg, instances, penalty, bucket.share)));
        if bucket.tokens > bucket.capacity {
          bucket := bucket.(tokens := bucket.capacity);
        }
        areaBuckets := areaBuckets[area := bucket];
      }
      return Some(bucket);
    }

    method Would(now: int, n: nat, rank: Class) returns (ok: bool)
      requires instances >= 1 && penalty >= 1.0
      modifies this`last, this`tokens, this`localTX
      ensures var (s, verdict) := Judge(cfg, old(Value()), now, n, rank);
              Value() == s && (ok <==> verdict == Admit)
    {
      var verdict := Check(now, n, rank);
      ok := verdict == Admit;
    }

    method Bill(now: int, n: nat, area: Option<AreaTag>) returns (ok: bool)
      requires instances >= 1 && penalty >= 1.0
      modifies this
      ensures (Value(), ok) == Billed(cfg, old(Value()), now, n, area)
    {
      hide BucketFor, Cost;
      var air := cfg.air(n);
      var cost := Cost(cfg, r, n);
      if area.Some? {
        var bucket := FindBucket(area.value, now);
        if bucket.Some? {
          if bucket.value.tokens < cost {
            stats := stats.(area := stats.area + 1);
            return false;
          }
          var left := bucket.value.(tokens := bucket.value.tokens - cost);
          areaBuckets := areaBuckets[area.value := left];
          assert areaBuckets == old(areaBuckets)[area.value := left];
        }
      }
      tokens := tokens - cost;
      localTX := localTX + [Entry(now, air)];
      sentPackets := sentPackets + 1;
      stats := stats.(allowed := stats.allowed + 1, charged := stats.charged + cost);
      return true;
    }

    method AllowCharge(checked: int, now: int, n: nat, rank: Class, area: Option<AreaTag>) returns (ok: bool)
      requires instances >= 1 && penalty >= 1.0
      modifies this
      ensures (Value(), ok) == Charge(cfg, old(Value()), checked, now, n, rank, area)
    {
      hide Judge, Billed, Counted;
      var verdict := Check(checked, n, rank);
      if verdict != Admit {
        stats := Counted(stats, verdict);
        return false;
      }
      ok := Bill(now, n, area);
    }

    method Resize(b: Bucket, share: real) returns (resized: Bucket)
      ensures resized == Reshared(cfg, capacity, r, b, share)
    {
      resized := b;
      if share != b.share {
        var full := AreaCapacity(cfg, capacity, r, share);
        resized := Bucket(share, if b.tokens > full then full else b.tokens, full, b.last);
      }
    }

    method SetAreaShares(shares: map<AreaTag, real>)
      modifies this`areaShares, this`areaBuckets
      ensures Value() == Recapped(cfg, old(Value()), shares)
    {
      hide Reshared, Positive;
      areaShares := OnlyPositive(shares);
      var todo := areaBuckets.Keys;
      while todo != {}
        invariant todo <= areaBuckets.Keys && areaShares == Positive(shares)
        invariant forall a :: a in areaBuckets <==> a in old(areaBuckets) && (a in todo || a in areaShares)
        invariant forall a :: a in areaBuckets ==>
                    areaBuckets[a] == if a in todo then old(areaBuckets)[a]
                                      else Reshared(cfg, capacity, r, old(areaBuckets)[a], areaShares[a])
        decreases todo
      {
        var a :| a in todo;
        todo := todo - {a};
        if a !in areaShares {
          areaBuckets := areaBuckets - {a};
        } else {
          var b := Resize(areaBuckets[a], areaShares[a]);
          areaBuckets := areaBuckets[a := b];
        }
      }
      assert areaBuckets == Recapped(cfg, old(Value()), shares).areaBuckets;
    }

    method Observe(now: int, util: real)
      requires instances >= 1 && penalty >= 1.0
      modifies this`last, this`tokens, this`localTX, this`chanUtil, this`haveTelemetry, this`penalty
      ensures Value() == Observed(cfg, old(Value()), now, util)
    {
      DoRefill(now);
      chanUtil, haveTelemetry := util, true;
      if util >= BACKOFF {
        penalty := penalty * 2.0;
        if penalty > MAX_PENALTY {
          penalty := MAX_PENALTY;
        }
      } else {
        penalty := penalty / 2.0;
        if penalty < 1.0 {
          penalty := 1.0;
        }
      }
    }

    method NoteEcho()
      modifies this`echoes, this`r
      ensures Value() == Echoed(cfg, old(Value()))
    {
      echoes := echoes + 1;
      if cfg.pinned || sentPackets < 20 {
        return;
      }
      var seen := 1.0 + echoes as real / sentPackets as real;
      if seen > r {
        r := seen;
      }
    }

    method SetInstances(now: int, n: int)
      requires instances >= 1 && penalty >= 1.0
      modifies this`last, this`tokens, this`localTX, this`instances, this`capacity
      ensures Value() == Divided(cfg, old(Value()), now, n)
    {
      if n < 1 {
        return;
      }
      DoRefill(now);
      instances := n;
      capacity := Burst(cfg, n, r);
      if tokens > capacity {
        tokens := capacity;
      }
    }
  }
}
