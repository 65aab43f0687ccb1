/** Rolling-hour accounting: entries are pruned once they leave the hour, and a new one is let in only
    while the hour has room. */
module Rolling {
  import opened Bytes

  const HOUR := 3600 * 1_000_000_000

  datatype Entry = Entry(at: int, weight: nat)

  function Total(log: seq<Entry>): nat {
    if log == [] then 0 else Total(log[..|log| - 1]) + log[|log| - 1].weight
  }

  // Entries strictly after the cutoff, in order.
  function After(log: seq<Entry>, cutoff: int): seq<Entry> {
    if log == [] then []
    else
      var last := |log| - 1;
      After(log[..last], cutoff) + if log[last].at > cutoff then [log[last]] else []
  }

  function Pruned(log: seq<Entry>, now: int): seq<Entry> {
    After(log, now - HOUR)
  }

  // The weight of the entries in the half-open hour (t - HOUR, t].
  function Window(log: seq<Entry>, t: int): nat {
    if log == [] then 0
    else
      var e := log[|log| - 1];
      Window(log[..|log| - 1], t) + if t - HOUR < e.at <= t then e.weight else 0
  }

  // The compacting filter loop.
  method Prune(log: seq<Entry>, now: int) returns (kept: seq<Entry>)
    ensures kept == Pruned(log, now)
  {
    var cutoff := now - HOUR;
    kept := [];
    for i := 0 to |log|
      invariant kept == After(log[..i], cutoff)
    {
      assert log[..i + 1][..i] == log[..i];
      if log[i].at > cutoff {
        kept := kept + [log[i]];
      }
    }
    assert log[..|log|] == log;
  }

  method Used(log: seq<Entry>) returns (used: nat)
    ensures used == Total(log)
  {
    used := 0;
    for i := 0 to |log|
      invariant used == Total(log[..i])
    {
      assert log[..i + 1][..i] == log[..i];
      used := used + log[i].weight;
    }
    assert log[..|log|] == log;
  }

  lemma {:induction false} AfterTwice(log: seq<Entry>, c: int, d: int)
    requires c <= d
    ensures After(After(log, c), d) == After(log, d)
  {
    if log != [] {
      var last := |log| - 1;
      AfterTwice(log[..last], c, d);
      var inner := After(log[..last], c);
      if log[last].at > c {
        assert (inner + [log[last]])[..|inner|] == inner;
      } else {
        assert inner + [] == inner;
      }
    }
  }

  // The window ending at t is part of what lies after any cutoff at or before t - HOUR.
  lemma {:induction false} WindowWithin(log: seq<Entry>, t: int, c: int)
    requires c <= t - HOUR
    ensures Window(log, t) <= Total(After(log, c))
  {
    if log != [] {
      var last := |log| - 1;
      WindowWithin(log[..last], t, c);
      var inner := After(log[..last], c);
      if log[last].at > c {
        assert (inner + [log[last]])[..|inner|] == inner;
      } else {
        assert inner + [] == inner;
      }
    }
  }

  // The working log holds everything of the full history that can still count at `now` or later.
  ghost predicate Covers(log: seq<Entry>, history: seq<Entry>, now: int) {
    exists c :: c <= now - HOUR && log == After(history, c)
  }

  ghost predicate Bounded(history: seq<Entry>, limit: int) {
    forall t: int :: Window(history, t) <= limit
  }

  ghost predicate NotAfter(history: seq<Entry>, now: int) {
    forall i :: 0 <= i < |history| ==> history[i].at <= now
  }

  lemma NothingYet(now: int, limit: nat)
    ensures Covers([], [], now) && Bounded([], limit) && NotAfter([], now)
  {
    assert After([], now - HOUR) == [];
  }

  lemma PruneKeepsCover(log: seq<Entry>, history: seq<Entry>, before: int, now: int)
    requires Covers(log, history, before) && before <= now
    ensures Pruned(log, now) == Pruned(history, now)
    ensures Covers(log, history, now) && Covers(Pruned(log, now), history, now)
  {
    var c :| c <= before - HOUR && log == After(history, c);
    AfterTwice(history, c, now - HOUR);
  }

  /** Letting in an entry at `at` when the pruned hour at `now` has room for it keeps every rolling hour,
      past and future, within the limit. */
  lemma AdmitKeepsBound(log: seq<Entry>, history: seq<Entry>, before: int, now: int, e: Entry, limit: int)
    requires Covers(log, history, before) && before <= now <= e.at && Bounded(history, limit) && NotAfter(history, now)
    requires Total(Pruned(log, now)) + e.weight <= limit
    ensures Bounded(history + [e], limit) && NotAfter(history + [e], e.at)
    ensures Covers(Pruned(log, now) + [e], history + [e], e.at)
  {
    var more := history + [e];
    assert more[..|history|] == history;
    PruneKeepsCover(log, history, before, now);
    forall t: int
      ensures Window(more, t) <= limit
    {
      assert Window(history, t) <= limit;
      if t >= e.at {
        WindowWithin(history, t, now - HOUR);
      }
    }
    assert After(more, now - HOUR) == Pruned(history, now) + [e];
  }

  // ---- the door limiter ------------------------------------------------------------------------------------

  class Limiter {
    var buckets: map<string, seq<Entry>>

    constructor ()
      ensures buckets == map[]
    {
      buckets := map[];
    }

    function Bucket(door: string): seq<Entry>
      reads this
    {
      if door in buckets then buckets[door] else []
    }

    method Allow(door: string, perHour: int, now: int) returns (ok: bool)
      modifies this
      ensures perHour <= 0 ==> !ok && buckets == old(buckets)
      ensures perHour > 0 ==>
                var kept := Pruned(old(Bucket(door)), now);
                && (ok <==> |kept| < perHour)
                && buckets == old(buckets)[door := if ok then kept + [Entry(now, 1)] else kept]
    {
      if perHour <= 0 {
        return false;
      }
      var kept := Prune(Bucket(door), now);
      if |kept| >= perHour {
        buckets := buckets[door := kept];
        return false;
      }
      buckets := buckets[door := kept + [Entry(now, 1)]];
      return true;
    }
  }

  // The bucket of one door and everything ever granted to it, over calls at these times.
  datatype Grants = Grants(bucket: seq<Entry>, history: seq<Entry>)

  function AfterCalls(perHour: nat, calls: seq<int>): Grants {
    if calls == [] then Grants([], [])
    else
      var g, now := AfterCalls(perHour, calls[..|calls| - 1]), calls[|calls| - 1];
      var kept := Pruned(g.bucket, now);
      if |kept| < perHour then Grants(kept + [Entry(now, 1)], g.history + [Entry(now, 1)]) else Grants(kept, g.history)
  }

  lemma {:induction false} UnitWeights(log: seq<Entry>)
    requires forall e :: e in log ==> e.weight == 1
    ensures Total(log) == |log|
  {
    if log != [] {
      UnitWeights(log[..|log| - 1]);
    }
  }

  lemma {:induction false} AfterIsPart(log: seq<Entry>, c: int)
    ensures forall e :: e in After(log, c) ==> e in log
  {
    if log != [] {
      AfterIsPart(log[..|log| - 1], c);
    }
  }

  ghost predicate Sound(g: Grants, perHour: nat, now: int) {
    && Bounded(g.history, perHour) && Covers(g.bucket, g.history, now) && NotAfter(g.history, now)
    && (forall e :: e in g.bucket ==> e.weight == 1)
  }

  lemma GrantKeepsSound(g: Grants, perHour: nat, t: int)
    requires Sound(g, perHour, t)
    ensures var kept := Pruned(g.bucket, t);
            Sound(if |kept| < perHour then Grants(kept + [Entry(t, 1)], g.history + [Entry(t, 1)])
                  else Grants(kept, g.history), perHour, t)
  {
    hide After, Total, Window;
    var kept := Pruned(g.bucket, t);
    AfterIsPart(g.bucket, t - HOUR);
    UnitWeights(kept);
    hide Bounded, Covers, NotAfter;
    PruneKeepsCover(g.bucket, g.history, t, t);
    if |kept| < perHour {
      AdmitKeepsBound(g.bucket, g.history, t, t, Entry(t, 1), perHour);
    }
  }

  lemma {:induction false} RunIsSound(perHour: nat, calls: seq<int>, now: int)
    requires forall i, j :: 0 <= i <= j < |calls| ==> calls[i] <= calls[j]
    requires calls != [] ==> calls[|calls| - 1] <= now
    ensures Sound(AfterCalls(perHour, calls), perHour, now)
  {
    if calls == [] {
      NothingYet(now, perHour);
    } else {
      hide Sound, After;
      var last := |calls| - 1;
      RunIsSound(perHour, calls[..last], calls[last]);
      GrantKeepsSound(AfterCalls(perHour, calls[..last]), perHour, calls[last]);
    }
  }

  /** Under a monotone clock no rolling hour, wherever it ends, holds more than perHour grants to a door. */
  lemma NeverMoreThanPerHour(perHour: nat, calls: seq<int>, t: int)
    requires forall i, j :: 0 <= i <= j < |calls| ==> calls[i] <= calls[j]
    ensures Window(AfterCalls(perHour, calls).history, t) <= perHour
  {
    RunIsSound(perHour, calls, if calls == [] then t else calls[|calls| - 1]);
  }
}
