/** What the digest schedule comes to: the intervals it gives at its defaults, how they grow with the mesh, how far
    jitter moves a beat, and what silences one. */
module Rhythm {
  import opened Bytes
  import opened Schedule

  // ---- the defaults ----------------------------------------------------------------------------------------------

  const Default: Config :=
    Config(1800 * SECOND, 5, 0.01, 8_600_000, 4.0, 0.20, 43200 * SECOND)

  lemma AirtimeOfTenAreas()
    ensures DigestAirtime(Default, 103) == 3_543_200_000
  {
    assert 103 as real * 8_600_000 as real * 4.0 == 3_543_200_000.0;
  }

  lemma DefaultClamp(peers: nat)
    requires peers >= 1
    ensures Clamp(Default, peers, 103) == 354_320_000_000 * peers
  {
    AirtimeOfTenAreas();
    hide DigestAirtime;
    var x := RoundCost(Default, peers, 103);
    assert x == (3_543_200_000 * peers) as real;
    hide RoundCost;
    assert x / 0.01 == (354_320_000_000 * peers) as real;
  }

  lemma DefaultHeuristic(peers: nat, scale: nat)
    requires peers == 5 * scale && scale >= 1
    ensures Heuristic(Default, peers) == 1800 * SECOND * scale
  {
    assert peers as real / 5.0 == scale as real;
    assert (1800 * SECOND) as real * scale as real == (1800 * SECOND * scale) as real;
  }

  /** At the defaults with ten areas: half an hour for five peers, two hours for twenty, five for fifty and ten for a
      hundred. The peer heuristic is a little above the airtime clamp, which alone would give 4.9 and 9.8 hours. */
  lemma DefaultIntervals()
    ensures Interval(Default, 5, 103) == 1800 * SECOND
    ensures Interval(Default, 20, 103) == 2 * 3600 * SECOND
    ensures Interval(Default, 50, 103) == 5 * 3600 * SECOND && Clamp(Default, 50, 103) == 17_716 * SECOND
    ensures Interval(Default, 100, 103) == 10 * 3600 * SECOND && Clamp(Default, 100, 103) == 35_432 * SECOND
  {
    DefaultHeuristic(5, 1);
    DefaultHeuristic(20, 4);
    DefaultHeuristic(50, 10);
    DefaultHeuristic(100, 20);
    DefaultClamp(5);
    DefaultClamp(20);
    DefaultClamp(50);
    DefaultClamp(100);
    hide Heuristic, Clamp;
  }

  // ---- growth with the mesh ------------------------------------------------------------------------------------

  lemma FloorOfQuotient(x: nat, d: nat, h: int)
    requires d >= 1 && h == (x as real / d as real).Floor
    ensures d * h <= x < d * (h + 1)
  {
    var q := x as real / d as real;
    assert q * d as real == x as real && h as real <= q < (h + 1) as real;
    QuotientIsBelow(x, d, q, h + 1);
    QuotientIsAbove(x, d, q, h);
  }

  lemma QuotientIsBelow(x: nat, d: nat, q: real, h: int)
    requires d >= 1 && q * d as real == x as real && q < h as real
    ensures x < d * h
  {
    TimesLess(d as real, q, h as real);
    AsReals(d, h);
  }

  lemma QuotientIsAbove(x: nat, d: nat, q: real, h: int)
    requires d >= 1 && q * d as real == x as real && h as real <= q
    ensures d * h <= x
  {
    TimesAtMost(d as real, h as real, q);
    AsReals(d, h);
  }

  lemma AsReals(a: int, b: int)
    ensures (a * b) as real == a as real * b as real
  {
  }

  lemma TimesAtMost(k: real, a: real, b: real)
    requires k > 0.0 && a <= b
    ensures k * a <= b * k
  {
  }

  lemma TimesLess(k: real, a: real, b: real)
    requires k > 0.0 && a < b
    ensures a * k < k * b
  {
  }

  lemma Regrouped(base: real, p: real, d: real)
    requires d > 0.0
    ensures base * (p / d) == base * p / d
  {
    var q := p / d;
    assert q * d == p;
    assert base * q * d == base * p;
    Divides(base * q, base * p, d);
  }

  lemma Divides(a: real, b: real, d: real)
    requires d > 0.0 && a * d == b
    ensures b / d == a
  {
  }

  /** The heuristic is the base interval times the peers over the divisor, rounded down, and never less than the base:
      a mesh up to the divisor keeps the base, one twice as large doubles it. */
  lemma HeuristicIsProportional(c: Config, peers: int)
    ensures var d, p := Max(c.peerDivisor, 1), Max(Max(peers, 1), Max(c.peerDivisor, 1));
            d * Heuristic(c, peers) <= c.base * p < d * (Heuristic(c, peers) + 1)
  {
    var d: nat, p: nat := Max(c.peerDivisor, 1), Max(peers, 1);
    ScaleIsAboveOne(p, d);
    if p < d {
      BaseAlone(c, peers);
      Between(c.base, d);
    } else {
      Stretched(c, peers);
      FloorOfQuotient(c.base * p, d, Heuristic(c, peers));
    }
  }

  lemma Between(base: nat, d: nat)
    requires d >= 1
    ensures d * base <= base * d < d * (base + 1)
  {
  }

  lemma BaseAlone(c: Config, peers: int)
    requires Max(peers, 1) as real / Max(c.peerDivisor, 1) as real < 1.0
    ensures Heuristic(c, peers) == c.base
  {
  }

  lemma BaseTimesScale(base: nat, p: nat, d: nat)
    requires d >= 1
    ensures base as real * (p as real / d as real) == (base * p) as real / d as real
  {
    Regrouped(base as real, p as real, d as real);
    AsReals(base, p);
  }

  lemma ScaledUp(c: Config, peers: int, scale: real)
    requires scale == Max(peers, 1) as real / Max(c.peerDivisor, 1) as real && scale >= 1.0
    ensures Heuristic(c, peers) == (c.base as real * scale).Floor
  {
    NonNegative(c.base as real, scale);
  }

  lemma Stretched(c: Config, peers: int)
    requires Max(peers, 1) as real / Max(c.peerDivisor, 1) as real >= 1.0
    ensures Heuristic(c, peers) == ((c.base * Max(peers, 1)) as real / Max(c.peerDivisor, 1) as real).Floor
  {
    hide Heuristic;
    ScaledUp(c, peers, Max(peers, 1) as real / Max(c.peerDivisor, 1) as real);
    BaseTimesScale(c.base, Max(peers, 1), Max(c.peerDivisor, 1));
  }

  lemma NonNegative(a: real, b: real)
    requires a >= 0.0 && b >= 0.0
    ensures a * b >= 0.0
  {
  }

  lemma ScaleIsAboveOne(p: nat, d: nat)
    requires p >= 1 && d >= 1
    ensures p as real / d as real < 1.0 <==> p < d
    ensures p as real / d as real >= 0.0
  {
    var q := p as real / d as real;
    assert q * d as real == p as real;
    QuotientAtMost(p as real, d as real, 1.0);
    QuotientIsNonNegative(p as real, d as real);
    if p >= d && q < 1.0 {
      TimesLess(d as real, q, 1.0);
    }
  }

  // ---- jitter --------------------------------------------------------------------------------------------------

  /** Jitter is symmetric: for every draw there is one that moves the beat as far the other way, so the mean interval is
      the one computed, and the lowest draw moves it by all of the jitter. */
  lemma JitterIsSymmetric(c: Config, interval: int, u: real)
    ensures Offset(c, interval, 1.0 - u) == -Offset(c, interval, u)
    ensures Offset(c, interval, 0.5) == 0.0 && Offset(c, interval, 0.0) == -(interval as real * c.jitter)
  {
    var span := interval as real * c.jitter;
    assert (0.0 * 2.0 - 1.0) * span == -span;
    assert ((1.0 - u) * 2.0 - 1.0) == -(u * 2.0 - 1.0);
    assert -(u * 2.0 - 1.0) * span == -((u * 2.0 - 1.0) * span);
  }

  lemma OffsetIsWithin(c: Config, interval: nat, u: real)
    requires Sane(c) && 0.0 <= u < 1.0
    ensures Offset(c, interval, u) <= interval as real * c.jitter
  {
    var span := interval as real * c.jitter;
    NonNegative(interval as real, c.jitter);
    NonNegative(1.0 - u, span);
    assert (u * 2.0 - 1.0) * span == span - 2.0 * ((1.0 - u) * span);
  }

  /** And no draw makes the delay longer than the interval and its jitter. */
  lemma DelayIsShortEnough(c: Config, interval: nat, u: real)
    requires Sane(c) && 0.0 <= u < 1.0
    ensures Jittered(c, interval, u) as real <= (1.0 + c.jitter) * interval as real
  {
    var span := interval as real * c.jitter;
    NonNegative(interval as real, c.jitter);
    assert (1.0 + c.jitter) * interval as real == interval as real + span;
    OffsetIsWithin(c, interval, u);
    hide Cut, Offset;
    CutAtMost(interval as real + Offset(c, interval, u), interval as real + span);
  }

  lemma CutAtMost(x: real, bound: real)
    requires x <= bound && bound >= 0.0
    ensures Cut(x) as real <= bound
  {
  }

  /** A digest never follows the reschedule that set it, nor any earlier digest, within a second, whatever the settings
      and the draw. */
  lemma BeatsAreASecondApart(c: Config, r: Run, e: Event, from: int)
    requires Tied(c, r, from) && InOrder(e, from) && Step(c, r, e).standalone != r.standalone
    ensures e.Tick? && e.now >= r.basis.now + SECOND && forall t :: t in r.standalone ==> e.now >= t + SECOND
  {
    hide Jittered, IntervalFor;
  }

  /** A beat set without a digest in hand is set as for ten areas. */
  lemma BeatWithoutADigest(c: Config, b: Beat)
    requires b.size <= 0
    ensures IntervalFor(c, b) == Interval(c, b.peers, 103)
  {
  }

  // ---- silence --------------------------------------------------------------------------------------------------

  /** Hearing agreement silences one beat and no more: the next due beat goes out, unless agreement is heard again. */
  lemma SilenceIsForOneBeat(c: Config, s: State, now: int, b: Beat, later: int, b': Beat)
    requires now >= s.due && s.heardMatching
    ensures var (s1, due) := Asked(c, s, now, b);
            && !due && s1.suppressed == s.suppressed + 1 && s1.due == DueAfter(c, b.(size := 0)) > b.now
            && (later >= s1.due ==> Asked(c, s1, later, b') == (s1, true))
  {
    hide IntervalFor, Jittered;
  }

  /** Whatever announces our state ends the silence others' agreement would have caused: after a bundle that carried a
      digest, or a digest, the beat it sets goes out when due, unless agreement is heard after it. */
  lemma SpeakingEndsTheSilence(c: Config, r: Run, e: Event, later: int, b: Beat)
    requires e.Piggyback? || (e.Tick? && Step(c, r, e).standalone != r.standalone)
    ensures var s := Step(c, r, e).s; !s.heardMatching && (later >= s.due ==> Asked(c, s, later, b) == (s, true))
  {
    hide DueAfter;
  }

  /** A mesh that keeps agreeing may stay silent, one that does not never is: at a beat that is due with no agreement
      heard since the last, the digest goes out. */
  lemma DisagreementIsNeverSilenced(c: Config, r: Run, e: Event)
    requires e.Tick? && e.outcome.Broadcast? && e.now >= r.s.due && !r.s.heardMatching
    ensures Step(c, r, e).standalone == r.standalone + [e.now] && Step(c, r, e).s.sent == r.s.sent + 1
    ensures !Step(c, r, Heard(false)).s.heardMatching
  {
    hide DueAfter;
  }
}
