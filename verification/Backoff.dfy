/** How the governor answers a busy channel, and what it believes a packet costs. */
module Backoff {
  import opened Bytes
  import opened Governor
  import opened Spending

  function Doubled(p: real, k: nat): real
    decreases k
  {
    if k == 0 then p else Doubled(p * 2.0, k - 1)
  }

  function AtMostTheCap(p: real): real {
    if p > MAX_PENALTY then MAX_PENALTY else p
  }

  lemma {:induction false} DoublingPastTheCap(p: real, k: nat)
    requires p >= MAX_PENALTY
    ensures Doubled(p, k) >= MAX_PENALTY
    decreases k
  {
    if k > 0 {
      DoublingPastTheCap(p * 2.0, k - 1);
    }
  }

  // Capping on the way does not show at the end.
  lemma CapEarlyOrLate(p: real, k: nat)
    ensures AtMostTheCap(Doubled(AtMostTheCap(p), k)) == AtMostTheCap(Doubled(p, k))
  {
    if p > MAX_PENALTY {
      DoublingPastTheCap(p, k);
      DoublingPastTheCap(MAX_PENALTY, k);
    }
  }

  lemma HearSetsThePenalty(c: Config, s: State, now: int, util: real)
    requires Ready(c) && Valid(s)
    ensures var t := Step(c, s, Hear(now, util));
            Valid(t) && t.penalty == if util >= BACKOFF then AtMostTheCap(s.penalty * 2.0)
                                     else if s.penalty / 2.0 < 1.0 then 1.0 else s.penalty / 2.0
  {
    StepKeepsValid(c, s, Hear(now, util));
    hide Refill, BucketsFit;
    RefillKeepsValid(c, s, now);
  }

  /** Every busy reading in a row doubles the penalty, up to the cap. */
  lemma {:induction false} BusyReadingsDouble(c: Config, s: State, readings: seq<Event>)
    requires Ready(c) && Valid(s) && forall e :: e in readings ==> e.Hear? && e.util >= BACKOFF
    ensures Run(c, s, readings).penalty == AtMostTheCap(Doubled(s.penalty, |readings|))
    decreases |readings|
  {
    if readings != [] {
      var e := readings[0];
      HearSetsThePenalty(c, s, e.now, e.util);
      CapEarlyOrLate(s.penalty * 2.0, |readings| - 1);
      hide Step, BucketsFit, AtMostTheCap;
      BusyReadingsDouble(c, Step(c, s, e), readings[1..]);
    }
  }

  function Halvings(p: real): nat
    requires p <= MAX_PENALTY
  {
    if p <= 1.0 then 0 else if p <= 2.0 then 1 else if p <= 4.0 then 2 else if p <= 8.0 then 3
    else if p <= 16.0 then 4 else 5
  }

  /** Five calm readings in a row clear any penalty. */
  lemma {:induction false} CalmReadingsClear(c: Config, s: State, readings: seq<Event>)
    requires Ready(c) && Valid(s) && forall e :: e in readings ==> e.Hear? && e.util < BACKOFF
    requires |readings| >= Halvings(s.penalty)
    ensures Halvings(s.penalty) <= 5 && Run(c, s, readings).penalty == 1.0
    decreases |readings|
  {
    if readings != [] {
      var e := readings[0];
      HearSetsThePenalty(c, s, e.now, e.util);
      hide Step, BucketsFit;
      CalmReadingsClear(c, Step(c, s, e), readings[1..]);
    }
  }

  /** A reading of the channel, or a new roster, changes nothing earned before it: what has accrued by then is what a
      mere look at the clock would have found, cut to the new bucket. */
  lemma EarnedBeforeStays(c: Config, s: State, now: int, util: real, n: int)
    requires Ready(c) && Valid(s) && n >= 1
    ensures Step(c, s, Hear(now, util)).tokens == Step(c, s, Poll(now)).tokens
    ensures var t := Step(c, s, Roster(now, n)); t.tokens == Min(Step(c, s, Poll(now)).tokens, t.capacity)
  {
    hide Refill, Burst, BucketsFit;
  }

  // The multiplier is never below the configured one, nor above it and everything twenty packets could show.
  ghost predicate Believable(c: Config, s: State) {
    && c.floodMultiplier <= s.r
    && (s.r <= c.floodMultiplier || s.r <= 1.0 + s.echoes as real / 20.0)
    && (c.pinned ==> s.r == c.floodMultiplier)
  }

  lemma SignOfQuotient(q: real, b: real)
    requires b > 0.0
    ensures q < 0.0 ==> q * b < 0.0
  {
  }

  lemma SmallerShare(x: real, a: real, b: real)
    requires x >= 0.0 && 0.0 < a <= b
    ensures x / b <= x / a
  {
    var q := x / b;
    assert q * b == x;
    SignOfQuotient(q, b);
    MulAtMost(q, a, b);
  }

  lemma FewerThanTwentyAreNotEnough(echoes: nat, sent: nat)
    requires sent >= 20
    ensures echoes as real / sent as real <= echoes as real / 20.0
  {
    SmallerShare(echoes as real, 20.0, sent as real);
  }

  lemma StepKeepsBelievable(c: Config, s: State, e: Event)
    requires Ready(c) && Valid(s) && Believable(c, s)
    ensures Believable(c, Step(c, s, e))
  {
    if e.Echo? {
      if s.sentPackets >= 20 {
        FewerThanTwentyAreNotEnough(s.echoes + 1, s.sentPackets);
      }
    } else {
      OthersLeaveTheEstimate(c, s, e);
    }
  }

  lemma QuotientStays(echoes: nat, sent: nat)
    requires sent >= 1
    ensures 0.0 <= echoes as real / sent as real
  {
    var q := echoes as real / sent as real;
    assert q * sent as real == echoes as real;
    SignOfQuotient(q, sent as real);
  }

  /** Once twenty packets are out an unpinned multiplier is at least what the echoes show of each, and no more than the
      larger of that and what it was: it follows the echoes up and never down. */
  lemma EchoesAreBelieved(c: Config, s: State)
    requires Ready(c) && Valid(s) && !c.pinned && s.sentPackets >= 20
    ensures var t, seen := Step(c, s, Echo), 1.0 + (s.echoes + 1) as real / s.sentPackets as real;
            t.echoes == s.echoes + 1 && t.r >= seen >= 1.0 && t.r >= s.r && (t.r == seen || t.r == s.r)
  {
    QuotientStays(s.echoes + 1, s.sentPackets);
  }

  lemma OthersLeaveTheEstimate(c: Config, s: State, e: Event)
    requires Ready(c) && Valid(s) && !e.Echo?
    ensures Step(c, s, e).r == s.r && Step(c, s, e).echoes == s.echoes
  {
    hide Charge, Judge, Refill, BucketsFit, Burst;
    match e
    case Send(checked, now, n, rank, area) =>
      ChargeSettles(c, s, checked, now, n, rank, area);
      RefillKeepsValid(c, s, checked);
    case Ask(now, n, rank) =>
      JudgeOnlyRefills(c, s, now, n, rank);
      RefillKeepsValid(c, s, now);
    case Poll(now) => RefillKeepsValid(c, s, now);
    case Hear(now, util) => RefillKeepsValid(c, s, now);
    case Roster(now, n) => RefillKeepsValid(c, s, now);
    case Caps(shares) =>
  }

  lemma {:induction false} RunKeepsBelievable(c: Config, s: State, events: seq<Event>)
    requires Ready(c) && Valid(s) && Believable(c, s)
    ensures Believable(c, Run(c, s, events))
    decreases |events|
  {
    if events != [] {
      hide Step, Believable, BucketsFit;
      StepKeepsValid(c, s, events[0]);
      StepKeepsBelievable(c, s, events[0]);
      RunKeepsBelievable(c, Step(c, s, events[0]), events[1..]);
    }
  }

  /** From the start, whatever happens: the multiplier is never taken below the configured one, is pinned when
      pinned, and rises no higher than the echoes heard over twenty packets could justify. */
  lemma MultiplierIsBelievable(raw: Config, boot: int, events: seq<Event>)
    requires forall n :: raw.air(n) > 0
    ensures Ready(Clamped(raw)) && Valid(Start(raw, boot))
    ensures Believable(Clamped(raw), Run(Clamped(raw), Start(raw, boot), events))
  {
    StartIsValid(raw, boot);
    RunKeepsBelievable(Clamped(raw), Start(raw, boot), events);
  }
}
