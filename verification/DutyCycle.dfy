/** The region's transmit limit: under a clock that never runs back, no rolling hour of what the governor let
    through exceeds the limit. */
module DutyCycle {
  import opened Bytes
  import opened Rolling
  import opened Governor
  import opened Spending

  // What event e puts on the air.
  function Aired(c: Config, s: State, e: Event): seq<Entry>
    requires s.instances >= 1 && s.penalty >= 1.0
  {
    if Sends(c, s, e) then [Entry(e.now, c.air(e.size))] else []
  }

  function AllAired(c: Config, s: State, events: seq<Event>): seq<Entry>
    requires Ready(c) && Valid(s)
    decreases |events|
  {
    if events == [] then []
    else
      StepKeepsValid(c, s, events[0]);
      Aired(c, s, events[0]) + AllAired(c, Step(c, s, events[0]), events[1..])
  }

  // The clock after event e, read no earlier than `now`; None if it ran back.
  function Later(e: Event, now: int): Option<int> {
    match e
    case Send(checked, charged, _, _, _) => if now <= checked <= charged then Some(charged) else None
    case Ask(t, _, _) => if now <= t then Some(t) else None
    case Poll(t) => if now <= t then Some(t) else None
    case Hear(t, _) => if now <= t then Some(t) else None
    case Roster(t, _) => if now <= t then Some(t) else None
    case Echo => Some(now)
    case Caps(_) => Some(now)
  }

  ghost predicate Monotone(events: seq<Event>, now: int) {
    events == [] || (Later(events[0], now).Some? && Monotone(events[1..], Later(events[0], now).value))
  }

  // The log still holds everything aired that can count from now on, and no hour so far is over the limit.
  ghost predicate Lawful(s: State, history: seq<Entry>, now: int, limit: int) {
    Covers(s.localTX, history, now) && Bounded(history, limit) && NotAfter(history, now)
  }

  lemma CoversLater(log: seq<Entry>, history: seq<Entry>, now: int, later: int)
    requires Covers(log, history, now) && now <= later
    ensures Covers(log, history, later) && Covers(Pruned(log, later), history, later)
  {
    PruneKeepsCover(log, history, now, later);
  }

  lemma PruneTwice(log: seq<Entry>, now: int)
    ensures Pruned(Pruned(log, now), now) == Pruned(log, now)
  {
    AfterTwice(log, now - HOUR, now - HOUR);
  }

  // A refilled log is the old one or the old one pruned.
  lemma RefillKeepsLawful(c: Config, s: State, history: seq<Entry>, now: int, later: int, limit: int)
    requires Ready(c) && Valid(s) && Lawful(s, history, now, limit) && now <= later
    ensures Lawful(Refill(c, s, later), history, later, limit)
  {
    hide Rate, Accrued, BucketsFit, Covers, Bounded, After;
    CoversLater(s.localTX, history, now, later);
  }

  lemma JudgeKeepsLawful(c: Config, s: State, history: seq<Entry>, now: int, later: int, n: nat, rank: Class,
                         limit: int)
    requires Ready(c) && Valid(s) && Lawful(s, history, now, limit) && now <= later
    ensures Lawful(Judge(c, s, later, n, rank).0, history, later, limit)
  {
    RefillKeepsLawful(c, s, history, now, later, limit);
    hide Refill, Cost, Held, BucketsFit, Covers, Bounded, After;
    CoversLater(Refill(c, s, later).localTX, history, later, later);
  }

  lemma AdmittedHasRoom(c: Config, s: State, now: int, n: nat, rank: Class)
    requires Ready(c) && Valid(s) && DutyLimit(c.region).Some? && Judge(c, s, now, n, rank).1 == Admit
    ensures var t := Judge(c, s, now, n, rank).0;
            Pruned(t.localTX, now) == t.localTX && Total(t.localTX) + c.air(n) <= DutyLimit(c.region).value
  {
    hide Cost, Held, BucketsFit, Total, Accrued, Rate;
    PruneTwice(Refill(c, s, now).localTX, now);
  }

  lemma SendKeepsLawful(c: Config, s: State, e: Event, history: seq<Entry>, now: int)
    requires Ready(c) && Valid(s) && e.Send? && now <= e.checked <= e.now && DutyLimit(c.region).Some?
    requires Lawful(s, history, now, DutyLimit(c.region).value)
    ensures Lawful(Step(c, s, e), history + Aired(c, s, e), e.now, DutyLimit(c.region).value)
  {
    var limit := DutyLimit(c.region).value;
    var (t, verdict) := Judge(c, s, e.checked, e.size, e.rank);
    JudgeKeepsLawful(c, s, history, now, e.checked, e.size, e.rank, limit);
    JudgeOnlyRefills(c, s, e.checked, e.size, e.rank);
    CoversLater(t.localTX, history, e.checked, e.now);
    if verdict == Admit {
      AdmittedHasRoom(c, s, e.checked, e.size, e.rank);
      BillSettles(c, t, e.now, e.size, e.area);
      AdmitKeepsBound(t.localTX, history, e.checked, e.checked, Entry(e.now, c.air(e.size)), limit);
    }
    hide Judge, Billed, Covers, Bounded, Pruned, Refill;
    assert history + [] == history;
    assert t.localTX + [] == t.localTX;
  }

  lemma OthersKeepLawful(c: Config, s: State, e: Event, history: seq<Entry>, now: int, limit: int)
    requires Ready(c) && Valid(s) && !e.Send? && Later(e, now).Some? && Lawful(s, history, now, limit)
    ensures Lawful(Step(c, s, e), history, Later(e, now).value, limit)
  {
    var later := Later(e, now).value;
    RefillKeepsLawful(c, s, history, now, later, limit);
    CoversLater(s.localTX, history, now, later);
    hide Refill, Judge, Burst, BucketsFit, Covers, Bounded;
    match e
    case Ask(t, n, rank) => JudgeKeepsLawful(c, s, history, now, t, n, rank, limit);
    case Poll(t) =>
    case Hear(t, util) =>
    case Echo =>
    case Roster(t, n) =>
    case Caps(shares) => SameR(c, s, shares);
  }

  lemma StepKeepsLawful(c: Config, s: State, e: Event, history: seq<Entry>, now: int)
    requires Ready(c) && Valid(s) && Later(e, now).Some? && DutyLimit(c.region).Some?
    requires Lawful(s, history, now, DutyLimit(c.region).value)
    ensures Lawful(Step(c, s, e), history + Aired(c, s, e), Later(e, now).value, DutyLimit(c.region).value)
  {
    hide Lawful, Step, BucketsFit;
    if e.Send? {
      SendKeepsLawful(c, s, e, history, now);
    } else {
      OthersKeepLawful(c, s, e, history, now, DutyLimit(c.region).value);
      assert history + [] == history;
    }
  }

  lemma Associates(a: seq<Entry>, b: seq<Entry>, c: seq<Entry>)
    ensures a + b + c == a + (b + c)
  {
  }

  lemma {:induction false} RunIsLawful(c: Config, s: State, events: seq<Event>, history: seq<Entry>, now: int)
    requires Ready(c) && Valid(s) && DutyLimit(c.region).Some? && Monotone(events, now)
    requires Lawful(s, history, now, DutyLimit(c.region).value)
    ensures Bounded(history + AllAired(c, s, events), DutyLimit(c.region).value)
    decreases |events|
  {
    if events == [] {
      assert history + [] == history;
    } else {
      hide Step, Lawful, BucketsFit, Bounded, Aired, Later, DutyLimit;
      var e := events[0];
      StepKeepsValid(c, s, e);
      StepKeepsLawful(c, s, e, history, now);
      var t := Step(c, s, e);
      RunIsLawful(c, t, events[1..], history + Aired(c, s, e), Later(e, now).value);
      Associates(history, Aired(c, s, e), AllAired(c, t, events[1..]));
    }
  }

  /** From the start, whatever is sent, refused, re-capped, polled or heard: no rolling hour, wherever it ends,
      holds more of our transmit time than the region allows. */
  lemma NoHourOverTheLimit(raw: Config, boot: int, events: seq<Event>, t: int)
    requires (forall n :: raw.air(n) > 0) && DutyLimit(raw.region).Some? && Monotone(events, boot)
    ensures Ready(Clamped(raw)) && Valid(Start(raw, boot))
    ensures Window(AllAired(Clamped(raw), Start(raw, boot), events), t) <= DutyLimit(raw.region).value
  {
    StartIsValid(raw, boot);
    var c, s := Clamped(raw), Start(raw, boot);
    NothingYet(boot, DutyLimit(raw.region).value);
    hide Valid, Monotone, Covers;
    RunIsLawful(c, s, events, [], boot);
    assert [] + AllAired(c, s, events) == AllAired(c, s, events);
  }

  /** The regions with a limit allow six minutes in the hour; others have none. */
  lemma LimitIsSixMinutes()
    ensures DutyLimit("EU_868") == DutyLimit("EU_433") == DutyLimit("UA_868") == DutyLimit("UA_433") ==
            Some(360 * 1_000_000_000)
    ensures DutyLimit("US").None?
  {
    assert 0.10 * HOUR as real == 360_000_000_000.0;
    assert "US" != "EU_433" && "US" != "EU_868" && "US" != "UA_433" && "US" != "UA_868";
  }
}
