/** When a node broadcasts a standalone digest, and what that costs the channel. Durations are whole
    nanoseconds, cut off wherever one is made from a real. */
module Schedule {
  import opened Bytes

  const SECOND := 1_000_000_000
  const REFERENCE_SIZE: nat := 103

  datatype Config = Config(
    base: nat, peerDivisor: int, controlShare: real, airtimePerByte: nat, floodMultiplier: real,
    jitter: real, maxInterval: int)

  ghost predicate Sane(c: Config) {
    c.controlShare >= 0.0 && c.floodMultiplier >= 0.0 && c.jitter >= 0.0
  }

  // Conversion to a duration cuts towards zero.
  function Cut(x: real): int {
    if x >= 0.0 then x.Floor else -(-x).Floor
  }

  function DigestAirtime(c: Config, size: int): int {
    Cut(size as real * c.airtimePerByte as real * c.floodMultiplier)
  }

  function Heuristic(c: Config, peers: int): int {
    var scale := Max(peers, 1) as real / Max(c.peerDivisor, 1) as real;
    Cut(c.base as real * if scale < 1.0 then 1.0 else scale)
  }

  // What one round of digests from the whole mesh costs the channel.
  function RoundCost(c: Config, peers: int, size: int): real {
    peers as real * DigestAirtime(c, size) as real
  }

  function Clamp(c: Config, peers: int, size: int): int {
    if c.controlShare > 0.0 then Cut(RoundCost(c, Max(peers, 1), size) / c.controlShare) else 0
  }

  function Unbounded(c: Config, peers: int, size: int): int {
    Max(Heuristic(c, peers), Clamp(c, peers, size))
  }

  function Interval(c: Config, peers: int, size: int): int {
    var interval := Unbounded(c, peers, size);
    if c.maxInterval > 0 then Min(interval, c.maxInterval) else interval
  }

  function Utilisation(c: Config, peers: int, size: int, interval: int): real {
    if interval <= 0 then 1.0 else RoundCost(c, peers, size) / interval as real
  }

  // ---- the airtime budget ----------------------------------------------------------------------------------

  predicate MaxBinds(c: Config, peers: int, size: int) {
    c.maxInterval > 0 && Unbounded(c, peers, size) > c.maxInterval
  }

  lemma MulKeepsOrder(k: real, a: real, b: real)
    requires k > 0.0
    ensures k * a <= k * b <==> a <= b
  {
  }

  lemma QuotientAtMost(x: real, a: real, b: real)
    requires a > 0.0
    ensures x / a <= b <==> x <= a * b
  {
    var q := x / a;
    assert a * q == x;
    MulKeepsOrder(a, q, b);
  }

  lemma QuotientIsNonNegative(x: real, a: real)
    requires x >= 0.0 && a > 0.0
    ensures x / a >= 0.0
  {
    var q := x / a;
    assert a * q == x;
    MulKeepsOrder(a, 0.0, q);
  }

  // What a round costs fits a share of an interval just when the interval is as long as the share asks for.
  lemma FitsTheShare(c: Config, peers: nat, size: nat, interval: int)
    requires Sane(c) && c.controlShare > 0.0 && interval > 0
    ensures Utilisation(c, peers, size, interval) <= c.controlShare <==>
            RoundCost(c, peers, size) / c.controlShare <= interval as real
  {
    var x := RoundCost(c, peers, size);
    hide RoundCost;
    QuotientAtMost(x, interval as real, c.controlShare);
    QuotientAtMost(x, c.controlShare, interval as real);
  }

  // The clamp is a whole number of nanoseconds, or the peer heuristic already asks for more.
  predicate ClampIsExact(c: Config, peers: int, size: int)
    requires c.controlShare > 0.0
  {
    var x := RoundCost(c, peers, size) / c.controlShare;
    x == x.Floor as real || Heuristic(c, peers) as real >= x
  }

  /** Where the longest interval does not bind, digests from the whole mesh stay within the control share
      exactly when cutting the clamp to whole nanoseconds cost it nothing. */
  lemma DigestsStayInTheirShare(c: Config, peers: int, size: nat)
    requires Sane(c) && c.controlShare > 0.0 && peers >= 1 && !MaxBinds(c, peers, size) && Interval(c, peers, size) > 0
    ensures Utilisation(c, peers, size, Interval(c, peers, size)) <= c.controlShare <==> ClampIsExact(c, peers, size)
  {
    FitsTheShare(c, peers, size, Interval(c, peers, size));
    QuotientIsNonNegative(RoundCost(c, peers, size), c.controlShare);
    hide Heuristic, RoundCost, Utilisation;
  }

  /** In any case one more nanosecond would do. */
  lemma DigestsOverrunByLessThanANanosecond(c: Config, peers: int, size: nat)
    requires Sane(c) && c.controlShare > 0.0 && peers >= 1 && !MaxBinds(c, peers, size)
    ensures Interval(c, peers, size) >= 0
    ensures Utilisation(c, peers, size, Interval(c, peers, size) + 1) <= c.controlShare
  {
    QuotientIsNonNegative(RoundCost(c, peers, size), c.controlShare);
    hide Heuristic, RoundCost, Utilisation;
    assert Interval(c, peers, size) >= 0;
    FitsTheShare(c, peers, size, Interval(c, peers, size) + 1);
  }

  lemma WholeIsItsFloor(x: real, n: int)
    requires x == n as real
    ensures x == x.Floor as real
  {
  }

  /** At the default share of one percent the clamp is always exact. */
  lemma DefaultShareIsExact(c: Config, peers: int, size: nat)
    requires c.controlShare == 0.01
    ensures ClampIsExact(c, peers, size)
  {
    hide DigestAirtime, Heuristic;
    var airtime := DigestAirtime(c, size);
    var x, whole := RoundCost(c, peers, size), peers * airtime;
    assert x == whole as real;
    hide RoundCost;
    WholeIsItsFloor(x / c.controlShare, 100 * whole);
  }

  /** A share of three percent, one peer and a digest worth one nanosecond: the clamp is cut to 33 and the
      share exceeded. */
  lemma ShareExceeded()
    ensures var c := Config(1, 1, 0.03, 1, 1.0, 0.0, 0);
            && Interval(c, 1, 1) == 33 && Utilisation(c, 1, 1, 33) > c.controlShare && !ClampIsExact(c, 1, 1)
  {
    assert (1.0 / 0.03).Floor == 33;
  }

  // ---- the scheduler ---------------------------------------------------------------------------------------

  datatype State = State(last: int, due: int, heardMatching: bool, suppressed: nat, sent: nat)

  // Symmetric around zero.
  function Offset(c: Config, interval: int, u: real): real {
    (u * 2.0 - 1.0) * (interval as real * c.jitter)
  }

  function Jittered(c: Config, interval: int, u: real): int {
    if c.jitter > 0.0 then Cut(interval as real + Offset(c, interval, u)) else interval
  }

  // A reschedule: when it read the clock, and for what mesh and draw in [0, 1).
  datatype Beat = Beat(now: int, peers: int, size: int, u: real)

  function IntervalFor(c: Config, b: Beat): int {
    Interval(c, b.peers, if b.size <= 0 then REFERENCE_SIZE else b.size)
  }

  function DueAfter(c: Config, b: Beat): int {
    b.now + Max(Jittered(c, IntervalFor(c, b), b.u), SECOND)
  }

  function Transmitted(c: Config, s: State, noted: int, b: Beat): State {
    s.(last := noted, heardMatching := false, due := DueAfter(c, b))
  }

  // `b` is used only if the beat is suppressed.
  function Asked(c: Config, s: State, now: int, b: Beat): (State, bool) {
    if now < s.due then (s, false)
    else if s.heardMatching then
      (s.(suppressed := s.suppressed + 1, heardMatching := false, due := DueAfter(c, b.(size := 0))), false)
    else (s, true)
  }

  class Scheduler {
    const cfg: Config
    var last: int
    var due: int
    var heardMatching: bool
    var suppressed: nat
    var sent: nat

    ghost function Value(): State
      reads this
    {
      State(last, due, heardMatching, suppressed, sent)
    }

    constructor (cfg: Config, now: int, b: Beat)
      ensures this.cfg == cfg && Value() == State(now, DueAfter(cfg, b.(size := 0)), false, 0, 0)
    {
      this.cfg, last, heardMatching, suppressed, sent := cfg, now, false, 0, 0;
      due := 0;
      new;
      Reschedule(b.(size := 0));
    }

    method Reschedule(b: Beat)
      modifies this`due
      ensures due == DueAfter(cfg, b)
    {
      hide Interval, Cut, Offset;
      var size := b.size;
      if size <= 0 {
        size := REFERENCE_SIZE;
      }
      var interval := Interval(cfg, b.peers, size);
      if cfg.jitter > 0.0 {
        interval := Cut(interval as real + Offset(cfg, interval, b.u));
      }
      if interval < SECOND {
        interval := SECOND;
      }
      due := b.now + interval;
    }

    method NoteTransmitted(noted: int, b: Beat)
      modifies this`last, this`heardMatching, this`due
      ensures Value() == Transmitted(cfg, old(Value()), noted, b)
    {
      last := noted;
      heardMatching := false;
      Reschedule(b);
    }

    method NoteHeard(matches: bool)
      modifies this`heardMatching
      ensures Value() == old(Value()).(heardMatching := old(heardMatching) || matches)
    {
      if matches {
        heardMatching := true;
      }
    }

    method Due(now: int, b: Beat) returns (ok: bool)
      modifies this`suppressed, this`heardMatching, this`due
      ensures (Value(), ok) == Asked(cfg, old(Value()), now, b)
    {
      if now < due {
        return false;
      }
      if heardMatching {
        suppressed := suppressed + 1;
        heardMatching := false;
        Reschedule(b.(size := 0));
        return false;
      }
      return true;
    }

    method MarkSent(noted: int, b: Beat)
      modifies this`last, this`heardMatching, this`due, this`sent
      ensures Value() == Transmitted(cfg, old(Value()).(sent := old(sent) + 1), noted, b)
    {
      sent := sent + 1;
      NoteTransmitted(noted, b);
    }
  }

  // ---- runs ------------------------------------------------------------------------------------------------

  // How a heartbeat tick ends once it is due: nothing federated, no budget or a failed send, or a digest sent.
  datatype Outcome = NothingFederated | HeldBack | Broadcast(size: nat)

  datatype Event =
    | Tick(now: int, noted: int, beat: Beat, outcome: Outcome)
    | Piggyback(noted: int, beat: Beat)
    | Heard(matches: bool)

  // The scheduler, the reschedule that set its due time, and when a standalone digest last went out.
  datatype Run = Run(s: State, basis: Beat, standalone: seq<int>)

  function Start(c: Config, now: int, b: Beat): Run {
    var first := b.(size := 0);
    Run(State(now, DueAfter(c, first), false, 0, 0), first, [])
  }

  function Step(c: Config, r: Run, e: Event): Run {
    match e
    case Heard(matches) => r.(s := r.s.(heardMatching := r.s.heardMatching || matches))
    case Piggyback(noted, b) => r.(s := Transmitted(c, r.s, noted, b), basis := b)
    case Tick(now, noted, b, outcome) =>
      var (s, due) := Asked(c, r.s, now, b);
      if !due then r.(s := s, basis := if s == r.s then r.basis else b.(size := 0))
      else if outcome.HeldBack? then r.(s := s)
      else
        var size := if outcome.Broadcast? then outcome.size else 0;
        var t := Transmitted(c, s.(sent := s.sent + 1), noted, b.(size := size));
        Run(t, b.(size := size), if outcome.Broadcast? then r.standalone + [now] else r.standalone)
  }

  // Readings within an event and from event to event never run back; draws lie in [0, 1).
  ghost predicate InOrder(e: Event, from: int) {
    match e
    case Heard(_) => true
    case Piggyback(noted, b) => from <= noted <= b.now && 0.0 <= b.u < 1.0
    case Tick(now, noted, b, _) => from <= now <= noted <= b.now && 0.0 <= b.u < 1.0
  }

  function Clock(e: Event, from: int): int {
    match e
    case Heard(_) => from
    case Piggyback(_, b) => b.now
    case Tick(_, _, b, _) => b.now
  }

  // The due time comes from its reschedule, which no standalone digest follows.
  ghost predicate Tied(c: Config, r: Run, now: int) {
    && r.s.due == DueAfter(c, r.basis) && r.basis.now <= now && 0.0 <= r.basis.u < 1.0
    && (forall t :: t in r.standalone ==> t <= r.basis.now)
  }

  // An interval less its jitter, and less the cut.
  function Gap(c: Config, interval: int): real {
    (1.0 - c.jitter) * interval as real - 1.0
  }

  lemma OffsetIsBounded(span: real, u: real)
    requires span >= 0.0 && 0.0 <= u < 1.0
    ensures (u * 2.0 - 1.0) * span >= -span
  {
    assert u * span >= 0.0;
  }

  /** One jittered interval is never shorter than the interval less its jitter, give or take the cut. */
  lemma DelayIsLongEnough(c: Config, interval: nat, u: real)
    requires Sane(c) && 0.0 <= u < 1.0
    ensures Jittered(c, interval, u) as real > Gap(c, interval)
  {
    var span := interval as real * c.jitter;
    assert span >= 0.0;
    assert (1.0 - c.jitter) * interval as real == interval as real - span;
    OffsetIsBounded(span, u);
    hide Cut;
  }

  lemma StepKeepsTied(c: Config, r: Run, e: Event, from: int)
    requires Tied(c, r, from) && InOrder(e, from)
    ensures Tied(c, Step(c, r, e), Clock(e, from))
  {
    hide DueAfter;
  }

  function AfterAll(c: Config, r: Run, events: seq<Event>): Run
    decreases |events|
  {
    if events == [] then r else AfterAll(c, Step(c, r, events[0]), events[1..])
  }

  ghost predicate AllInOrder(events: seq<Event>, from: int) {
    events == [] || (InOrder(events[0], from) && AllInOrder(events[1..], Clock(events[0], from)))
  }

  // Every two digests in a row are this far apart.
  ghost predicate Spaced(times: seq<int>, gap: real) {
    forall i :: 0 <= i < |times| - 1 ==> (times[i + 1] - times[i]) as real > gap
  }

  // Every reschedule allows for at least this interval.
  ghost predicate NeverBelow(c: Config, b: Beat, interval: nat) {
    IntervalFor(c, b) >= interval
  }

  ghost predicate BeatsAllow(c: Config, e: Event, interval: nat) {
    match e
    case Heard(_) => true
    case Piggyback(_, b) => NeverBelow(c, b, interval)
    case Tick(_, _, b, outcome) =>
      && NeverBelow(c, b.(size := 0), interval)
      && (outcome.Broadcast? ==> NeverBelow(c, b.(size := outcome.size), interval))
  }

  /** A digest that goes out follows its reschedule, and so every earlier digest, by the interval computed
      there for that mesh and that size, less the jitter. */
  lemma DigestFollowsItsReschedule(c: Config, r: Run, e: Event, from: int)
    requires Sane(c) && Tied(c, r, from) && InOrder(e, from)
    requires Step(c, r, e).standalone != r.standalone
    ensures e.Tick? && Step(c, r, e).standalone == r.standalone + [e.now]
    ensures var interval := IntervalFor(c, r.basis);
            && (e.now - r.basis.now) as real > Gap(c, interval)
            && (forall t :: t in r.standalone ==> (e.now - t) as real > Gap(c, interval))
  {
    DelayIsLongEnough(c, IntervalFor(c, r.basis), r.basis.u);
    assert e.now >= r.s.due;
    hide Jittered, Interval, Gap;
    forall t | t in r.standalone
      ensures (e.now - t) as real >= (e.now - r.basis.now) as real
    {
    }
  }

  lemma ShorterGap(c: Config, interval: int, least: int)
    requires c.jitter <= 1.0 && least <= interval
    ensures Gap(c, least) <= Gap(c, interval)
  {
    var factor := 1.0 - c.jitter;
    assert factor * least as real <= factor * interval as real;
  }

  lemma StepNeverBelow(c: Config, r: Run, e: Event, least: nat)
    requires NeverBelow(c, r.basis, least) && BeatsAllow(c, e, least)
    ensures NeverBelow(c, Step(c, r, e).basis, least)
  {
    hide IntervalFor, Transmitted;
  }

  lemma StepKeepsSpacing(c: Config, r: Run, e: Event, from: int, least: nat)
    requires Sane(c) && c.jitter <= 1.0 && Tied(c, r, from) && InOrder(e, from)
    requires NeverBelow(c, r.basis, least) && Spaced(r.standalone, Gap(c, least))
    ensures Spaced(Step(c, r, e).standalone, Gap(c, least))
  {
    if Step(c, r, e).standalone != r.standalone {
      DigestFollowsItsReschedule(c, r, e, from);
      ShorterGap(c, IntervalFor(c, r.basis), least);
      hide Gap, Step, Spaced, Tied, InOrder, IntervalFor;
      if r.standalone != [] {
        assert r.standalone[|r.standalone| - 1] in r.standalone;
      }
      SpacedOnward(r.standalone, e.now, Gap(c, least));
    }
  }

  lemma SpacedOnward(times: seq<int>, t: int, gap: real)
    requires Spaced(times, gap) && (times != [] ==> (t - times[|times| - 1]) as real > gap)
    ensures Spaced(times + [t], gap)
  {
  }

  lemma {:induction false} RunKeepsSpacing(c: Config, r: Run, events: seq<Event>, from: int, least: nat)
    requires Sane(c) && c.jitter <= 1.0 && Tied(c, r, from) && AllInOrder(events, from)
    requires NeverBelow(c, r.basis, least) && forall e :: e in events ==> BeatsAllow(c, e, least)
    requires Spaced(r.standalone, Gap(c, least))
    ensures Spaced(AfterAll(c, r, events).standalone, Gap(c, least))
    decreases |events|
  {
    if events != [] {
      hide Step, Tied, InOrder, NeverBelow, BeatsAllow, Spaced, Clock;
      StepKeepsTied(c, r, events[0], from);
      StepNeverBelow(c, r, events[0], least);
      StepKeepsSpacing(c, r, events[0], from, least);
      RunKeepsSpacing(c, Step(c, r, events[0]), events[1..], Clock(events[0], from), least);
    }
  }

  /** In every run, two standalone digests in a row are at least the shortest interval computed on the way
      apart, less the jitter, whatever is piggybacked, heard, suppressed or held back between them. */
  lemma DigestsAreSpaced(c: Config, now: int, b: Beat, events: seq<Event>, least: nat)
    requires Sane(c) && c.jitter <= 1.0 && 0.0 <= b.u < 1.0 && AllInOrder(events, b.now)
    requires NeverBelow(c, b.(size := 0), least) && forall e :: e in events ==> BeatsAllow(c, e, least)
    ensures Spaced(AfterAll(c, Start(c, now, b), events).standalone, Gap(c, least))
  {
    hide NeverBelow, BeatsAllow, AllInOrder;
    RunKeepsSpacing(c, Start(c, now, b), events, b.now, least);
  }

  // The share of such a span pays for the cost.
  ghost predicate Affords(c: Config, cost: real, span: int) {
    cost <= c.controlShare * span as real
  }

  function LessJitter(c: Config, cost: real): real {
    (1.0 - c.jitter) * cost
  }

  lemma GapAffords(c: Config, cost: real, interval: int, apart: int)
    requires Sane(c) && c.controlShare > 0.0 && c.jitter <= 1.0
    requires Affords(c, cost, interval + 1) && Gap(c, interval) < apart as real
    ensures Affords(c, LessJitter(c, cost), apart + 2)
  {
    var factor, share, next := 1.0 - c.jitter, c.controlShare, (interval + 1) as real;
    assert factor * cost <= factor * (share * next);
    assert factor * (share * next) == share * (factor * next);
    assert factor * next == factor * interval as real + factor;
    MulKeepsOrder(share, factor * next, (apart + 2) as real);
  }

  lemma IntervalAffords(c: Config, peers: int, size: nat)
    requires Sane(c) && c.controlShare > 0.0 && peers >= 1 && !MaxBinds(c, peers, size)
    ensures Affords(c, RoundCost(c, peers, size), Interval(c, peers, size) + 1)
  {
    DigestsOverrunByLessThanANanosecond(c, peers, size);
    hide Interval, MaxBinds, RoundCost;
    FitsTheShare(c, peers, size, Interval(c, peers, size) + 1);
    QuotientAtMost(RoundCost(c, peers, size), c.controlShare, (Interval(c, peers, size) + 1) as real);
  }

  /** The time since any earlier digest pays, out of the control share, for a whole round of digests from the
      mesh the reschedule saw, less the jitter and two nanoseconds of rounding. */
  lemma DigestIsPaidFor(c: Config, r: Run, e: Event, from: int, t: int)
    requires Sane(c) && 0.0 < c.controlShare && c.jitter <= 1.0 && Tied(c, r, from) && InOrder(e, from)
    requires Step(c, r, e).standalone != r.standalone && t in r.standalone
    requires r.basis.peers >= 1 && r.basis.size > 0 && !MaxBinds(c, r.basis.peers, r.basis.size)
    ensures e.Tick? && Affords(c, LessJitter(c, RoundCost(c, r.basis.peers, r.basis.size)), e.now - t + 2)
  {
    hide Step, Tied, InOrder, Interval, MaxBinds, RoundCost, Affords, Gap, LessJitter;
    DigestFollowsItsReschedule(c, r, e, from);
    var peers, size := r.basis.peers, r.basis.size;
    IntervalAffords(c, peers, size);
    GapAffords(c, RoundCost(c, peers, size), Interval(c, peers, size), e.now - t);
  }
}
