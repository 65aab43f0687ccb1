/** The gossip engine of one node: what it queues on hearing a digest, what it sends when the queue
    fires, how it answers, and what it tells its scheduler and its transport. Each method is tied to the
    functions the convergence results are about. */
module Engine {
  import opened Bytes
  import opened Bundle
  import opened Store
  import opened Sorting
  import opened GossipWire
  import opened AntiEntropy
  import opened Convergence
  import opened LossControl
  import S = Schedule

  // A vector request waiting out its suppression window.
  datatype PendingAsk = PendingAsk(peer: NodeID, area: AreaTag, at: int, wantHash: AreaTag)

  // A broadcast a peer ought to gain from: the count its next digest should show.
  datatype AwaitedPush = AwaitedPush(want: uint16, at: int)

  datatype PeerState = PeerState(
    lastDigest: map<AreaTag, AreaState>, awaiting: map<AreaTag, AwaitedPush>, dictionary: Option<byte>)

  datatype Outgoing =
    | AskVector(peer: NodeID, area: AreaTag)
    | AskRanges(peer: NodeID, request: RangeReq)
    | PushRecords(area: AreaTag, recs: seq<Record>)
    | Announce(size: nat)

  // What becomes of one message: the governor refuses, the transport takes it, or the send fails.
  datatype Reply = NoBudget | Taken | Failed

  ghost predicate DistinctAsks(asks: seq<PendingAsk>) {
    forall i, j :: 0 <= i < j < |asks| ==> asks[i].peer != asks[j].peer || asks[i].area != asks[j].area
  }

  predicate Queued(asks: seq<PendingAsk>, peer: NodeID, area: AreaTag) {
    exists i :: 0 <= i < |asks| && asks[i].peer == peer && asks[i].area == area
  }

  // ---- firing ------------------------------------------------------------------------------------------

  // What becomes of one ask at `now`: not yet due, already answered by somebody's broadcast, held back by
  // the governor, sent, or failed in sending.
  datatype Fate = Waiting | Answered | HeldBack | Sent | Stuck

  function FateOf(ask: PendingAsk, now: int, mine: AreaTag -> AreaTag, reply: Reply): Fate {
    if now < ask.at then Waiting
    else if mine(ask.area) == ask.wantHash then Answered
    else
      match reply
      case NoBudget => HeldBack
      case Taken => Sent
      case Failed => Stuck
  }

  // The asks kept, and the requests sent, when the answer to ask i is reply(i) and no send fails.
  function Kept(asks: seq<PendingAsk>, now: int, mine: AreaTag -> AreaTag, reply: nat -> Reply): (kept: seq<PendingAsk>)
    ensures |kept| <= |asks|
  {
    if asks == [] then []
    else
      var last := |asks| - 1;
      var fate := FateOf(asks[last], now, mine, reply(last));
      Kept(asks[..last], now, mine, reply) + if fate == Waiting || fate == HeldBack then [asks[last]] else []
  }

  function Fired(asks: seq<PendingAsk>, now: int, mine: AreaTag -> AreaTag, reply: nat -> Reply): seq<Outgoing> {
    if asks == [] then []
    else
      var last := |asks| - 1;
      Fired(asks[..last], now, mine, reply) +
      if FateOf(asks[last], now, mine, reply(last)) == Sent then [AskVector(asks[last].peer, asks[last].area)] else []
  }

  // How many were dropped as answered.
  function Answers(asks: seq<PendingAsk>, now: int, mine: AreaTag -> AreaTag, reply: nat -> Reply): nat {
    if asks == [] then 0
    else
      var last := |asks| - 1;
      Answers(asks[..last], now, mine, reply) + if FateOf(asks[last], now, mine, reply(last)) == Answered then 1 else 0
  }

  lemma OneMoreFired(asks: seq<PendingAsk>, now: int, mine: AreaTag -> AreaTag, reply: nat -> Reply, i: nat)
    requires i < |asks|
    ensures var fate := FateOf(asks[i], now, mine, reply(i));
            && Kept(asks[..i + 1], now, mine, reply) ==
                 Kept(asks[..i], now, mine, reply) + (if fate == Waiting || fate == HeldBack then [asks[i]] else [])
            && Fired(asks[..i + 1], now, mine, reply) ==
                 Fired(asks[..i], now, mine, reply) +
                 (if fate == Sent then [AskVector(asks[i].peer, asks[i].area)] else [])
            && Answers(asks[..i + 1], now, mine, reply) ==
                 Answers(asks[..i], now, mine, reply) + (if fate == Answered then 1 else 0)
  {
    assert asks[..i + 1][..i] == asks[..i];
  }

  lemma NothingFired(now: int, mine: AreaTag -> AreaTag, reply: nat -> Reply)
    ensures Kept([], now, mine, reply) == [] && Fired([], now, mine, reply) == [] && Answers([], now, mine, reply) == 0
  {
  }

  // The first ask at or after i whose send fails; the end if none does.
  function FailsAt(asks: seq<PendingAsk>, now: int, mine: AreaTag -> AreaTag, reply: nat -> Reply, i: nat): (n: nat)
    requires i <= |asks|
    ensures i <= n <= |asks|
    decreases |asks| - i
  {
    if i == |asks| || FateOf(asks[i], now, mine, reply(i)) == Stuck then i else FailsAt(asks, now, mine, reply, i + 1)
  }

  lemma {:induction false} FirstFailure(asks: seq<PendingAsk>, now: int, mine: AreaTag -> AreaTag,
                                        reply: nat -> Reply, i: nat)
    requires i <= |asks|
    ensures var n := FailsAt(asks, now, mine, reply, i);
            && (forall j :: i <= j < n ==> FateOf(asks[j], now, mine, reply(j)) != Stuck)
            && (n < |asks| ==> FateOf(asks[n], now, mine, reply(n)) == Stuck)
    decreases |asks| - i
  {
    if i < |asks| && FateOf(asks[i], now, mine, reply(i)) != Stuck {
      FirstFailure(asks, now, mine, reply, i + 1);
    }
  }

  lemma FailsHereOrLater(asks: seq<PendingAsk>, now: int, mine: AreaTag -> AreaTag, reply: nat -> Reply, i: nat)
    requires i < |asks|
    ensures FailsAt(asks, now, mine, reply, i) ==
            if FateOf(asks[i], now, mine, reply(i)) == Stuck then i else FailsAt(asks, now, mine, reply, i + 1)
  {
  }

  // The queue after the first n were gone through: those kept, moved to the front, and then whatever the
  // compaction has not overwritten.
  function Compacted(asks: seq<PendingAsk>, now: int, mine: AreaTag -> AreaTag, reply: nat -> Reply, n: nat)
    : (q: seq<PendingAsk>)
    requires n <= |asks|
    ensures |q| == |asks|
  {
    var kept := Kept(asks[..n], now, mine, reply);
    kept + asks[|kept|..]
  }

  // An ask that stays is written over the place after those kept.
  lemma CompactedOneMore(asks: seq<PendingAsk>, now: int, mine: AreaTag -> AreaTag, reply: nat -> Reply, i: nat)
    requires i < |asks|
    ensures var fate, count := FateOf(asks[i], now, mine, reply(i)), |Kept(asks[..i], now, mine, reply)|;
            var q := Compacted(asks, now, mine, reply, i);
            && count <= i && q[i] == asks[i]
            && Compacted(asks, now, mine, reply, i + 1) ==
                 if fate == Waiting || fate == HeldBack then q[count := asks[i]] else q
  {
    OneMoreFired(asks, now, mine, reply, i);
    var kept := Kept(asks[..i], now, mine, reply);
    assert (kept + asks[|kept|..])[|kept| := asks[i]] == kept + [asks[i]] + asks[|kept| + 1..];
  }

  lemma CompactedAtTheEnd(asks: seq<PendingAsk>, now: int, mine: AreaTag -> AreaTag, reply: nat -> Reply)
    ensures Compacted(asks, now, mine, reply, 0) == asks
    ensures var kept := Kept(asks, now, mine, reply);
            Kept(asks[..|asks|], now, mine, reply) == kept
            && Compacted(asks, now, mine, reply, |asks|)[..|kept|] == kept
  {
    assert asks[..|asks|] == asks;
  }

  // A send that fails leaves the queue half-compacted.
  function Remaining(asks: seq<PendingAsk>, now: int, mine: AreaTag -> AreaTag, reply: nat -> Reply): seq<PendingAsk> {
    var n := FailsAt(asks, now, mine, reply, 0);
    if n == |asks| then Kept(asks, now, mine, reply) else Compacted(asks, now, mine, reply, n)
  }

  ghost predicate Accounted(a: PendingAsk, kept: seq<PendingAsk>, fired: seq<Outgoing>, mine: AreaTag -> AreaTag) {
    a in kept || AskVector(a.peer, a.area) in fired || mine(a.area) == a.wantHash
  }

  // Of those gone through before any send failed, each is kept, was sent, or was answered.
  lemma {:induction false} GoneThroughIsAccounted(asks: seq<PendingAsk>, now: int, mine: AreaTag -> AreaTag,
                                                  reply: nat -> Reply, i: nat)
    requires i < |asks| && forall j :: 0 <= j < |asks| ==> FateOf(asks[j], now, mine, reply(j)) != Stuck
    ensures Accounted(asks[i], Kept(asks, now, mine, reply), Fired(asks, now, mine, reply), mine)
  {
    var last := |asks| - 1;
    if i < last {
      GoneThroughIsAccounted(asks[..last], now, mine, reply, i);
    } else {
      var kept, fired := Kept(asks, now, mine, reply), Fired(asks, now, mine, reply);
      var fate := FateOf(asks[last], now, mine, reply(last));
      if fate == Sent {
        assert fired[|fired| - 1] == AskVector(asks[last].peer, asks[last].area);
      } else if fate != Answered {
        assert kept[|kept| - 1] == asks[last];
      }
    }
  }

  /** No ask is lost, whether or not a send fails: each is still queued, was sent, or was answered. */
  lemma NoAskIsLost(asks: seq<PendingAsk>, now: int, mine: AreaTag -> AreaTag, reply: nat -> Reply, i: nat)
    requires i < |asks|
    ensures var n := FailsAt(asks, now, mine, reply, 0);
            Accounted(asks[i], Remaining(asks, now, mine, reply), Fired(asks[..n], now, mine, reply), mine)
  {
    var n := FailsAt(asks, now, mine, reply, 0);
    assert asks[..|asks|] == asks;
    FirstFailure(asks, now, mine, reply, 0);
    if i < n {
      GoneThroughIsAccounted(asks[..n], now, mine, reply, i);
    } else {
      var q, k := Remaining(asks, now, mine, reply), |Kept(asks[..n], now, mine, reply)|;
      assert q[i] == asks[i];
    }
  }

  lemma {:induction false} KeptWasQueued(asks: seq<PendingAsk>, now: int, mine: AreaTag -> AreaTag,
                                         reply: nat -> Reply)
    ensures forall a :: a in Kept(asks, now, mine, reply) ==> a in asks
  {
    if asks != [] {
      KeptWasQueued(asks[..|asks| - 1], now, mine, reply);
      assert forall a :: a in asks[..|asks| - 1] ==> a in asks;
    }
  }

  lemma OneMoreDistinct(kept: seq<PendingAsk>, asks: seq<PendingAsk>)
    requires asks != [] && DistinctAsks(asks) && DistinctAsks(kept)
    requires forall a :: a in kept ==> a in asks[..|asks| - 1]
    ensures DistinctAsks(kept + [asks[|asks| - 1]])
  {
    var last := |asks| - 1;
    forall i | 0 <= i < |kept|
      ensures kept[i].peer != asks[last].peer || kept[i].area != asks[last].area
    {
      assert kept[i] in kept;
    }
  }

  // An ask that is due, whose answer has not come, and that goes out.
  ghost predicate Goes(ask: PendingAsk, now: int, mine: AreaTag -> AreaTag, reply: Reply) {
    ask.at <= now && mine(ask.area) != ask.wantHash && reply == Taken
  }

  /** Nothing is sent before its time, nothing whose answer has come meanwhile, and nothing without leave: a request
      goes out exactly when some ask for it is due, unanswered and let through. */
  lemma {:induction false} FiredExactlyWhen(asks: seq<PendingAsk>, now: int, mine: AreaTag -> AreaTag,
                                            reply: nat -> Reply, peer: NodeID, area: AreaTag)
    ensures AskVector(peer, area) in Fired(asks, now, mine, reply) <==>
            exists i: nat :: i < |asks| && asks[i].peer == peer && asks[i].area == area
                             && Goes(asks[i], now, mine, reply(i))
    ensures |Fired(asks, now, mine, reply)| <= |asks|
  {
    if asks != [] {
      var init, last := asks[..|asks| - 1], asks[|asks| - 1];
      FiredExactlyWhen(init, now, mine, reply, peer, area);
      assert forall i: nat :: i < |init| ==> init[i] == asks[i];
      assert FateOf(last, now, mine, reply(|asks| - 1)) == Sent <==> Goes(last, now, mine, reply(|asks| - 1));
    }
  }

  /** And what an ask that stays in the queue waits for is its time, or leave. */
  lemma {:induction false} KeptIsEarlyOrBarred(asks: seq<PendingAsk>, now: int, mine: AreaTag -> AreaTag,
                                               reply: nat -> Reply)
    requires forall i :: 0 <= i < |asks| ==> reply(i) == Taken
    ensures forall a :: a in Kept(asks, now, mine, reply) <==> a in asks && now < a.at
  {
    if asks != [] {
      KeptIsEarlyOrBarred(asks[..|asks| - 1], now, mine, reply);
      assert forall a :: a in asks <==> a in asks[..|asks| - 1] || a == asks[|asks| - 1];
    }
  }

  // What is kept was queued, under distinct keys.
  lemma {:induction false} KeptStaysDistinct(asks: seq<PendingAsk>, now: int, mine: AreaTag -> AreaTag,
                                             reply: nat -> Reply)
    requires DistinctAsks(asks)
    ensures DistinctAsks(Kept(asks, now, mine, reply))
    ensures forall a :: a in Kept(asks, now, mine, reply) ==> a in asks
  {
    KeptWasQueued(asks, now, mine, reply);
    if asks != [] {
      var init := asks[..|asks| - 1];
      assert DistinctAsks(init);
      hide DistinctAsks, FateOf;
      KeptStaysDistinct(init, now, mine, reply);
      OneMoreDistinct(Kept(init, now, mine, reply), asks);
    }
  }

  predicate Stays(ask: PendingAsk, now: int, mine: AreaTag -> AreaTag, reply: Reply) {
    var fate := FateOf(ask, now, mine, reply);
    fate == Waiting || fate == HeldBack
  }

  // Some ask is gone and one behind it stays, so that the second moves forward.
  ghost predicate Shifts(asks: seq<PendingAsk>, now: int, mine: AreaTag -> AreaTag, reply: nat -> Reply, n: nat)
    requires n <= |asks|
  {
    exists i, j ::
      0 <= i < j < n && !Stays(asks[i], now, mine, reply(i)) && Stays(asks[j], now, mine, reply(j))
  }

  lemma KeptOneMore(asks: seq<PendingAsk>, now: int, mine: AreaTag -> AreaTag, reply: nat -> Reply)
    requires asks != []
    ensures var init, last := asks[..|asks| - 1], asks[|asks| - 1];
            Kept(asks, now, mine, reply) ==
            Kept(init, now, mine, reply) + (if Stays(last, now, mine, reply(|asks| - 1)) then [last] else [])
  {
    hide FateOf;
  }

  lemma {:induction false} StayersAreKept(asks: seq<PendingAsk>, now: int, mine: AreaTag -> AreaTag,
                                          reply: nat -> Reply)
    requires forall i :: 0 <= i < |asks| ==> Stays(asks[i], now, mine, reply(i))
    ensures Kept(asks, now, mine, reply) == asks
  {
    if asks != [] {
      KeptOneMore(asks, now, mine, reply);
      hide Stays, Kept;
      var init := asks[..|asks| - 1];
      assert forall i :: 0 <= i < |init| ==> init[i] == asks[i];
      StayersAreKept(init, now, mine, reply);
    }
  }

  lemma {:induction false} AGapInTheKept(asks: seq<PendingAsk>, now: int, mine: AreaTag -> AreaTag,
                                         reply: nat -> Reply, i: nat)
    requires i < |asks| && !Stays(asks[i], now, mine, reply(i))
    ensures |Kept(asks, now, mine, reply)| < |asks|
  {
    KeptOneMore(asks, now, mine, reply);
    hide Stays, Kept;
    if i < |asks| - 1 {
      AGapInTheKept(asks[..|asks| - 1], now, mine, reply, i);
    }
  }

  lemma AllKept(asks: seq<PendingAsk>, now: int, mine: AreaTag -> AreaTag, reply: nat -> Reply)
    ensures |Kept(asks, now, mine, reply)| == |asks| <==>
            forall i :: 0 <= i < |asks| ==> Stays(asks[i], now, mine, reply(i))
    ensures |Kept(asks, now, mine, reply)| == |asks| ==> Kept(asks, now, mine, reply) == asks
  {
    hide Stays, Kept;
    if i: nat :| i < |asks| && !Stays(asks[i], now, mine, reply(i)) {
      AGapInTheKept(asks, now, mine, reply, i);
    } else {
      StayersAreKept(asks, now, mine, reply);
    }
  }

  // Where the last ask kept stood.
  lemma {:induction false} LastKept(asks: seq<PendingAsk>, now: int, mine: AreaTag -> AreaTag, reply: nat -> Reply)
    returns (p: nat)
    requires Kept(asks, now, mine, reply) != []
    ensures p < |asks| && Kept(asks, now, mine, reply) == Kept(asks[..p], now, mine, reply) + [asks[p]]
    ensures Stays(asks[p], now, mine, reply(p))
    ensures forall q :: p < q < |asks| ==> !Stays(asks[q], now, mine, reply(q))
  {
    var last := |asks| - 1;
    hide FateOf;
    if Stays(asks[last], now, mine, reply(last)) {
      p := last;
    } else {
      p := LastKept(asks[..last], now, mine, reply);
      assert asks[..last][..p] == asks[..p];
    }
  }

  lemma {:induction false} NoneKept(asks: seq<PendingAsk>, now: int, mine: AreaTag -> AreaTag, reply: nat -> Reply)
    requires Kept(asks, now, mine, reply) == []
    ensures forall i :: 0 <= i < |asks| ==> !Stays(asks[i], now, mine, reply(i))
  {
    if asks != [] {
      NoneKept(asks[..|asks| - 1], now, mine, reply);
      hide FateOf;
    }
  }

  lemma AMovedAskIsThereTwice(asks: seq<PendingAsk>, kept: seq<PendingAsk>, p: nat)
    requires 0 < |kept| <= p < |asks| && kept[|kept| - 1] == asks[p] && DistinctAsks(asks)
    ensures !DistinctAsks(kept + asks[|kept|..])
  {
    var q, k := kept + asks[|kept|..], |kept|;
    assert q[k - 1] == asks[p] == q[p];
  }

  lemma PutBack(asks: seq<PendingAsk>, p: nat)
    requires p < |asks|
    ensures asks[..p] + [asks[p]] + asks[p + 1..] == asks
  {
  }

  // The last ask kept has moved forward exactly when some ask before it is gone.
  lemma LastKeptHasMoved(asks: seq<PendingAsk>, now: int, mine: AreaTag -> AreaTag, reply: nat -> Reply, n: nat)
    returns (p: nat)
    requires n <= |asks| && Kept(asks[..n], now, mine, reply) != []
    ensures p < n && |Kept(asks[..n], now, mine, reply)| <= p + 1
    ensures var kept := Kept(asks[..n], now, mine, reply);
            && kept[|kept| - 1] == asks[p]
            && (Shifts(asks, now, mine, reply, n) <==> |kept| != p + 1)
            && (|kept| == p + 1 ==> kept == asks[..p] + [asks[p]])
  {
    p := LastKept(asks[..n], now, mine, reply);
    assert asks[..n][..p] == asks[..p];
    AllKept(asks[..p], now, mine, reply);
    hide Stays, Kept;
    assert forall q :: p < q < n ==> asks[..n][q] == asks[q];
    assert forall i :: 0 <= i < p ==> asks[..p][i] == asks[i];
  }

  lemma CompactedRepeatsWhatMoved(asks: seq<PendingAsk>, now: int, mine: AreaTag -> AreaTag, reply: nat -> Reply,
                                  n: nat)
    requires DistinctAsks(asks) && n <= |asks|
    ensures var q := Compacted(asks, now, mine, reply, n);
            if Shifts(asks, now, mine, reply, n) then !DistinctAsks(q) else q == asks
  {
    var kept := Kept(asks[..n], now, mine, reply);
    assert Compacted(asks, now, mine, reply, n) == kept + asks[|kept|..];
    if kept == [] {
      NoneKept(asks[..n], now, mine, reply);
      NothingShifts(asks, now, mine, reply, n);
    } else {
      hide DistinctAsks, Kept, Stays, Compacted, Shifts;
      var p := LastKeptHasMoved(asks, now, mine, reply, n);
      if |kept| == p + 1 {
        PutBack(asks, p);
      } else {
        AMovedAskIsThereTwice(asks, kept, p);
      }
    }
  }

  lemma NothingShifts(asks: seq<PendingAsk>, now: int, mine: AreaTag -> AreaTag, reply: nat -> Reply, n: nat)
    requires n <= |asks| && forall i :: 0 <= i < n ==> !Stays(asks[..n][i], now, mine, reply(i))
    ensures !Shifts(asks, now, mine, reply, n)
  {
    hide Stays;
    assert forall i :: 0 <= i < n ==> asks[..n][i] == asks[i];
  }

  /** With distinct asks queued they stay distinct, unless a send fails after some ask has gone and one behind it
      has stayed: moved forward, that one is still there where it stood. Otherwise a failed send leaves the queue as it
      was, with the asks already sent in it. */
  lemma FailureRepeatsWhatMoved(asks: seq<PendingAsk>, now: int, mine: AreaTag -> AreaTag, reply: nat -> Reply)
    requires DistinctAsks(asks)
    ensures var n, q := FailsAt(asks, now, mine, reply, 0), Remaining(asks, now, mine, reply);
            && (DistinctAsks(q) <==> n == |asks| || !Shifts(asks, now, mine, reply, n))
            && (n < |asks| && DistinctAsks(q) ==> q == asks)
  {
    hide Kept, DistinctAsks, Compacted, FailsAt, Shifts;
    KeptStaysDistinct(asks, now, mine, reply);
    CompactedRepeatsWhatMoved(asks, now, mine, reply, FailsAt(asks, now, mine, reply, 0));
  }

  /** Three asks for one area, the first sent, the second not yet due, the third failing: the second is then
      queued twice. */
  lemma AFailedSendQueuesTwice(a: PendingAsk, b: PendingAsk, c: PendingAsk, mine: AreaTag -> AreaTag,
                               reply: nat -> Reply)
    requires DistinctAsks([a, b, c]) && a.at == c.at == 0 && b.at == 1
    requires mine(a.area) != a.wantHash && mine(c.area) != c.wantHash && reply(0) == Taken && reply(2) == Failed
    ensures Remaining([a, b, c], 0, mine, reply) == [b, b, c]
  {
    var asks := [a, b, c];
    FailsHereOrLater(asks, 0, mine, reply, 0);
    FailsHereOrLater(asks, 0, mine, reply, 1);
    FailsHereOrLater(asks, 0, mine, reply, 2);
    NothingFired(0, mine, reply);
    OneMoreFired(asks, 0, mine, reply, 0);
    OneMoreFired(asks, 0, mine, reply, 1);
    assert asks[..0] == [] && Kept(asks[..2], 0, mine, reply) == [b];
  }

  // ---- what a digest says -----------------------------------------------------------------------------

  const MAX_SATURATED_COUNT := 0xFFFF

  // A peer's entry answers what the last broadcast asked of it, whatever it says.
  function HeardEntry(p: PeerState, a: AreaState): PeerState {
    p.(lastDigest := p.lastDigest[a.tag := a], awaiting := p.awaiting - {a.tag})
  }

  function HeardAll(p: PeerState, areas: seq<AreaState>): PeerState {
    if areas == [] then p else HeardEntry(HeardAll(p, areas[..|areas| - 1]), areas[|areas| - 1])
  }

  // What the entries settle, in order: whether what was awaited had landed.
  function Landings(p: PeerState, areas: seq<AreaState>): seq<bool> {
    if areas == [] then []
    else
      var init, a := areas[..|areas| - 1], areas[|areas| - 1];
      var awaiting := HeardAll(p, init).awaiting;
      Landings(p, init) + if a.tag in awaiting then [a.count >= awaiting[a.tag].want] else []
  }

  lemma HeardOneMore(p: PeerState, areas: seq<AreaState>, i: nat)
    requires i < |areas|
    ensures HeardAll(p, areas[..i + 1]) == HeardEntry(HeardAll(p, areas[..i]), areas[i])
    ensures var awaiting := HeardAll(p, areas[..i]).awaiting;
            Landings(p, areas[..i + 1]) ==
            Landings(p, areas[..i]) +
            if areas[i].tag in awaiting then [areas[i].count >= awaiting[areas[i].tag].want] else []
  {
    assert areas[..i + 1][..i] == areas[..i];
  }

  // The loss estimate, how many broadcasts were judged and how many missed, and what the transport was told.
  datatype Ledger = Ledger(estimate: real, observed: nat, missed: nat, told: seq<real>)

  function Judged(l: Ledger, landings: seq<bool>): Ledger {
    Ledger(Estimate(l.estimate, landings), l.observed + |landings|, l.missed + Misses(landings),
           l.told + Told(l.estimate, landings))
  }

  lemma NothingHeard(l: Ledger, p: PeerState)
    ensures HeardAll(p, []) == p && Judged(l, Landings(p, [])) == l
  {
  }

  lemma OneJudged(l: Ledger, landed: bool)
    ensures var estimate := Delivered(l.estimate, landed);
            Judged(l, [landed]) ==
            Ledger(estimate, l.observed + 1, l.missed + (if landed then 0 else 1),
                   l.told + (if estimate != l.estimate then [estimate] else []))
  {
    EstimateOneMore(l.estimate, [], landed);
  }

  lemma JudgedInTurn(l: Ledger, landings: seq<bool>, landed: bool)
    ensures Judged(Judged(l, landings), [landed]) == Judged(l, landings + [landed])
  {
    OneJudged(Judged(l, landings), landed);
    EstimateOneMore(l.estimate, landings, landed);
  }

  // What one more entry adds.
  lemma JudgedOneMore(l: Ledger, p: PeerState, areas: seq<AreaState>, i: nat)
    requires i < |areas|
    ensures var before, awaiting := Judged(l, Landings(p, areas[..i])), HeardAll(p, areas[..i]).awaiting;
            Judged(l, Landings(p, areas[..i + 1])) ==
            if areas[i].tag in awaiting then Judged(before, [areas[i].count >= awaiting[areas[i].tag].want]) else before
  {
    HeardOneMore(p, areas, i);
    var awaiting := HeardAll(p, areas[..i]).awaiting;
    var seen := Landings(p, areas[..i]);
    assert seen + [] == seen;
    if areas[i].tag in awaiting {
      JudgedInTurn(l, Landings(p, areas[..i]), areas[i].count >= awaiting[areas[i].tag].want);
    }
  }

  ghost predicate DistinctAreas(areas: seq<AreaState>) {
    forall i, j :: 0 <= i < j < |areas| ==> areas[i].tag != areas[j].tag
  }

  // The entries that answer something awaited of this peer.
  function Answering(p: PeerState, areas: seq<AreaState>): (found: seq<AreaState>)
    ensures forall a :: a in found <==> a in areas && a.tag in p.awaiting
  {
    if areas == [] then []
    else
      var last := |areas| - 1;
      assert forall a :: a in areas <==> a in areas[..last] || a == areas[last];
      Answering(p, areas[..last]) + if areas[last].tag in p.awaiting then [areas[last]] else []
  }

  function Tags(areas: seq<AreaState>): set<AreaTag> {
    set a | a in areas :: a.tag
  }

  lemma TagsOfMore(areas: seq<AreaState>)
    requires areas != [] && DistinctAreas(areas)
    ensures var init, last := areas[..|areas| - 1], areas[|areas| - 1];
            && Tags(areas) == Tags(init) + {last.tag} && last.tag !in Tags(init) && DistinctAreas(init)
            && (forall a :: a in areas <==> a in init || a == last)
            && (forall a :: a in init ==> a.tag in Tags(init))
  {
  }

  lemma {:induction false} AwaitedIsSettled(p: PeerState, areas: seq<AreaState>)
    requires DistinctAreas(areas)
    ensures HeardAll(p, areas).dictionary == p.dictionary && HeardAll(p, areas).awaiting == p.awaiting - Tags(areas)
  {
    if areas != [] {
      TagsOfMore(areas);
      hide Tags, DistinctAreas;
      AwaitedIsSettled(p, areas[..|areas| - 1]);
    }
  }

  /** After a digest the peer's last word on every area named is the one in it, nothing is awaited of it there
      any more, and all else is as it was. */
  lemma {:induction false} DigestSettlesItsAreas(p: PeerState, areas: seq<AreaState>)
    requires DistinctAreas(areas)
    ensures var q := HeardAll(p, areas);
            && q.dictionary == p.dictionary && q.awaiting == p.awaiting - Tags(areas)
            && q.lastDigest.Keys == p.lastDigest.Keys + Tags(areas)
            && (forall a :: a in areas ==> a.tag in q.lastDigest && q.lastDigest[a.tag] == a)
            && (forall t :: t in p.lastDigest.Keys - Tags(areas) ==> q.lastDigest[t] == p.lastDigest[t])
  {
    AwaitedIsSettled(p, areas);
    if areas != [] {
      TagsOfMore(areas);
      hide Tags, DistinctAreas;
      DigestSettlesItsAreas(p, areas[..|areas| - 1]);
    }
  }

  /** And every broadcast awaited there has been judged once, by the count given. */
  lemma {:induction false} EachAwaitedIsJudgedOnce(p: PeerState, areas: seq<AreaState>)
    requires DistinctAreas(areas)
    ensures var found := Answering(p, areas);
            && |Landings(p, areas)| == |found|
            && forall i :: 0 <= i < |found| ==>
                 Landings(p, areas)[i] == (found[i].count >= p.awaiting[found[i].tag].want)
  {
    if areas != [] {
      var init, last := areas[..|areas| - 1], areas[|areas| - 1];
      EachAwaitedIsJudgedOnce(p, init);
      AwaitedIsSettled(p, init);
      TagsOfMore(areas);
    }
  }

  // ---- the object -----------------------------------------------------------------------------------------

  class Engine {
    const store: Store
    const sched: S.Scheduler
    const hash: Vector -> AreaTag
    const limits: Limits
    const requestDelay: nat
    var pending: seq<PendingAsk>
    var peers: map<NodeID, PeerState>
    var lossEstimate: real
    var bundlesObserved: nat
    var bundlesMissed: nat
    var dropped: nat
    var out: seq<Outgoing>
    var told: seq<real>

    constructor (store: Store, sched: S.Scheduler, hash: Vector -> AreaTag, limits: Limits, requestDelay: nat,
                 seed: real)
      ensures this.store == store && this.sched == sched && this.hash == hash
      ensures this.limits == limits && this.requestDelay == requestDelay
      ensures pending == [] && peers == map[] && out == [] && told == [] && lossEstimate == seed
    {
      this.store, this.sched, this.hash, this.limits, this.requestDelay := store, sched, hash, limits, requestDelay;
      pending, peers, lossEstimate, out, told := [], map[], seed, [], [];
      bundlesObserved, bundlesMissed, dropped := 0, 0, 0;
    }

    function VectorOf(area: AreaTag): Vector
      reads store
    {
      VectorIn(store.areas, area)
    }

    // What one digest entry asks for, in an area we carry.
    ghost predicate Motivates(a: AreaState)
      reads store
    {
      a.tag in store.areas && Causes(hash, VectorOf(a.tag), a)
    }

    // The peer agrees with us in every area we share, and we share one.
    ghost predicate Matches(areas: seq<AreaState>)
      reads store
    {
      && (exists a :: a in areas && a.tag in store.areas)
      && (forall a :: a in areas && a.tag in store.areas ==> hash(VectorOf(a.tag)) == a.hash)
    }

    // The ask answers an entry of the digest, within the suppression window.
    ghost predicate Justified(ask: PendingAsk, peer: NodeID, areas: seq<AreaState>, now: int)
      reads store
    {
      && ask.peer == peer && now <= ask.at <= now + requestDelay
      && exists a :: a in areas && Motivates(a) && a.tag == ask.area && a.hash == ask.wantHash
    }

    // What a digest adds to a queue: an ask for every entry that gives cause, and no other.
    ghost predicate Asking(was: seq<PendingAsk>, asks: seq<PendingAsk>, peer: NodeID, areas: seq<AreaState>, now: int)
      reads store
    {
      && was <= asks
      && (forall a :: a in areas && Motivates(a) ==> Queued(asks, peer, a.tag))
      && (forall k :: |was| <= k < |asks| ==> Justified(asks[k], peer, areas, now))
    }

    lemma NothingAsked(asks: seq<PendingAsk>, peer: NodeID, now: int)
      ensures Asking(asks, asks, peer, [], now)
    {
    }

    lemma AskingOneMore(was: seq<PendingAsk>, asks: seq<PendingAsk>, more: seq<PendingAsk>, peer: NodeID,
                        areas: seq<AreaState>, i: nat, now: int, jitter: nat)
      requires i < |areas| && jitter <= requestDelay && Asking(was, asks, peer, areas[..i], now)
      requires var a := areas[i];
               && (Motivates(a) ==> Queued(more, peer, a.tag))
               && more == if Motivates(a) && !Queued(asks, peer, a.tag)
                          then asks + [PendingAsk(peer, a.tag, now + jitter, a.hash)] else asks
      ensures Asking(was, more, peer, areas[..i + 1], now)
    {
      var before, after := areas[..i], areas[..i + 1];
      assert forall a :: a in after <==> a in before || a == areas[i];
      forall a | a in after && Motivates(a)
        ensures Queued(more, peer, a.tag)
      {
        if a in before {
          var k :| 0 <= k < |asks| && asks[k].peer == peer && asks[k].area == a.tag;
          assert more[k] == asks[k];
        }
      }
      forall k | |was| <= k < |more|
        ensures Justified(more[k], peer, after, now)
      {
        if k < |asks| {
          assert Justified(asks[k], peer, before, now);
        }
      }
    }

    // How many areas we share with the peer and in how many of them we agree, as far as it matters.
    ghost predicate Tally(areas: seq<AreaState>, shared: nat, matching: nat)
      reads store
    {
      && matching <= shared
      && (shared > 0 <==> exists a :: a in areas && a.tag in store.areas)
      && (matching == shared <==> forall a :: a in areas && a.tag in store.areas ==> hash(VectorOf(a.tag)) == a.hash)
    }

    lemma NothingTallied()
      ensures Tally([], 0, 0)
    {
    }

    lemma TallyTells(areas: seq<AreaState>, shared: nat, matching: nat)
      requires Tally(areas, shared, matching)
      ensures shared > 0 && matching == shared <==> Matches(areas)
    {
    }

    lemma TallyOneMore(areas: seq<AreaState>, i: nat, shared: nat, matching: nat)
      requires i < |areas| && Tally(areas[..i], shared, matching)
      ensures var also := areas[i].tag in store.areas;
              var same := also && hash(VectorOf(areas[i].tag)) == areas[i].hash;
              Tally(areas[..i + 1], shared + (if also then 1 else 0), matching + (if same then 1 else 0))
    {
      assert forall a :: a in areas[..i + 1] <==> a in areas[..i] || a == areas[i];
    }

    // The digest of everything carried, as it will be sized.
    function DigestSize(): nat
      reads store
    {
      DIGEST_HEADER + 10 * |store.areas|
    }

    ghost function Learned(): Ledger
      reads this
    {
      Ledger(lossEstimate, bundlesObserved, bundlesMissed, told)
    }

    method ScheduleAsk(peer: NodeID, area: AreaTag, wantHash: AreaTag, now: int, jitter: nat)
      requires jitter <= requestDelay
      modifies this`pending
      ensures old(DistinctAsks(pending)) ==> DistinctAsks(pending)
      ensures Queued(pending, peer, area)
      ensures pending == if old(Queued(pending, peer, area)) then old(pending)
                         else old(pending) + [PendingAsk(peer, area, now + jitter, wantHash)]
    {
      var i := 0;
      while i < |pending|
        invariant 0 <= i <= |pending|
        invariant forall j :: 0 <= j < i ==> pending[j].peer != peer || pending[j].area != area
      {
        if pending[i].peer == peer && pending[i].area == area {
          return;
        }
        i := i + 1;
      }
      pending := pending + [PendingAsk(peer, area, now + jitter, wantHash)];
      assert pending[|pending| - 1].peer == peer;
    }

    // What one entry of a digest leads to. count(v) is the vector's own record total.
    method Compare(peer: NodeID, a: AreaState, now: int, jitter: nat, count: Vector -> nat)
      returns (shared: bool, same: bool)
      requires jitter <= requestDelay && (forall v :: count(v) == Count(v))
      modifies this`pending
      ensures shared == (a.tag in store.areas) && same == (shared && hash(VectorOf(a.tag)) == a.hash)
      ensures old(DistinctAsks(pending)) ==> DistinctAsks(pending)
      ensures Motivates(a) ==> Queued(pending, peer, a.tag)
      ensures pending == if Motivates(a) && !old(Queued(pending, peer, a.tag))
                         then old(pending) + [PendingAsk(peer, a.tag, now + jitter, a.hash)] else old(pending)
    {
      if a.tag !in store.areas {
        return false, false;
      }
      var mine := VectorOf(a.tag);
      if hash(mine) == a.hash {
        return true, true;
      }
      if SaturatingCount(count(mine)) > a.count {
        return true, false;
      }
      ScheduleAsk(peer, a.tag, a.hash, now, jitter);
      return true, false;
    }

    // The peer's entries are settled one by one, then compared; only a peer that agrees everywhere silences us.
    method OnDigest(peer: NodeID, dictionary: byte, areas: seq<AreaState>, now: int, jitter: nat -> nat,
                    count: Vector -> nat)
      requires (forall i :: jitter(i) <= requestDelay) && (forall v :: count(v) == Count(v))
      modifies this`pending, this`peers, this`lossEstimate, this`bundlesObserved, this`bundlesMissed, this`told
      modifies sched`heardMatching
      ensures old(DistinctAsks(pending)) ==> DistinctAsks(pending)
      ensures Asking(old(pending), pending, peer, areas, now)
      ensures var p := PeerIn(old(peers), peer).(dictionary := Some(dictionary));
              && peers == old(peers)[peer := HeardAll(p, areas)]
              && Learned() == Judged(old(Learned()), Landings(p, areas))
      ensures sched.Value() == old(sched.Value()).(heardMatching := old(sched.heardMatching) || Matches(areas))
    {
      hide PeerIn, HeardEntry, HeardAll, Landings, Judged, Asking, Tally, Matches, Motivates, VectorIn, DistinctAsks,
        Queued;
      ghost var p := PeerIn(peers, peer).(dictionary := Some(dictionary));
      peers := peers[peer := PeerIn(peers, peer).(dictionary := Some(dictionary))];
      var shared, matching := 0, 0;
      NothingHeard(Learned(), p);
      NothingAsked(pending, peer, now);
      NothingTallied();
      assert areas[..0] == [];
      for i := 0 to |areas|
        invariant old(DistinctAsks(pending)) ==> DistinctAsks(pending)
        invariant Asking(old(pending), pending, peer, areas[..i], now)
        invariant peers == old(peers)[peer := HeardAll(p, areas[..i])]
        invariant Learned() == Judged(old(Learned()), Landings(p, areas[..i]))
        invariant sched.Value() == old(sched.Value())
        invariant Tally(areas[..i], shared, matching)
      {
        var a := areas[i];
        ghost var was := pending;
        HeardOneMore(p, areas, i);
        PeerReplaced(old(peers), peer, HeardAll(p, areas[..i]), HeardAll(p, areas[..i + 1]));
        SettleAwaited(peer, a);
        JudgedOneMore(old(Learned()), p, areas, i);
        var also, same := Compare(peer, a, now, jitter(i), count);
        AskingOneMore(old(pending), was, pending, peer, areas, i, now, jitter(i));
        TallyOneMore(areas, i, shared, matching);
        shared := shared + if also then 1 else 0;
        matching := matching + if same then 1 else 0;
      }
      assert areas[..|areas|] == areas;
      TallyTells(areas, shared, matching);
      sched.NoteHeard(shared > 0 && matching == shared);
    }

    // A peer's digest entry answers what the last broadcast asked of it, whatever it says.
    method SettleAwaited(peer: NodeID, a: AreaState)
      modifies this`peers, this`lossEstimate, this`bundlesObserved, this`bundlesMissed, this`told
      ensures var p := PeerIn(old(peers), peer);
              && peers == old(peers)[peer := HeardEntry(p, a)]
              && Learned() == if a.tag in p.awaiting then Judged(old(Learned()), [a.count >= p.awaiting[a.tag].want])
                              else old(Learned())
    {
      var p := PeerIn(peers, peer);
      if a.tag in p.awaiting {
        OneJudged(Learned(), a.count >= p.awaiting[a.tag].want);
        NoteDelivery(a.count >= p.awaiting[a.tag].want);
      }
      peers := peers[peer := HeardEntry(p, a)];
    }

    method NoteDelivery(landed: bool)
      modifies this`lossEstimate, this`bundlesObserved, this`bundlesMissed, this`told
      ensures lossEstimate == Delivered(old(lossEstimate), landed)
      ensures told == old(told) + (if lossEstimate != old(lossEstimate) then [lossEstimate] else [])
      ensures bundlesObserved == old(bundlesObserved) + 1
      ensures bundlesMissed == old(bundlesMissed) + (if landed then 0 else 1)
    {
      var before := lossEstimate;
      bundlesObserved := bundlesObserved + 1;
      if landed {
        lossEstimate := lossEstimate * DECAY_FACTOR;
        if lossEstimate < 0.001 {
          lossEstimate := 0.0;
        }
      } else {
        lossEstimate := lossEstimate * CLIMB_FACTOR + CLIMB_FLOOR;
        if lossEstimate > CEILING {
          lossEstimate := CEILING;
        }
        bundlesMissed := bundlesMissed + 1;
      }
      if lossEstimate != before {
        told := told + [lossEstimate];
      }
    }

    // Every measurable peer is expected to gain from a bundle just sent.
    method NoteAwaited(area: AreaTag, added: nat, now: int)
      modifies this`peers
      ensures peers.Keys == old(peers).Keys
      ensures forall p :: p in old(peers) ==> peers[p] == Expecting(old(peers)[p], area, added, now)
    {
      if added == 0 {
        return;
      }
      var todo := peers.Keys;
      while todo != {}
        invariant todo <= peers.Keys == old(peers).Keys
        invariant forall p :: p in peers ==>
                    peers[p] == if p in todo then old(peers)[p] else Expecting(old(peers)[p], area, added, now)
        decreases todo
      {
        var p :| p in todo;
        peers := peers[p := Expecting(peers[p], area, added, now)];
        todo := todo - {p};
      }
    }

    // Fires the due asks, compacting the queue over itself; a send that fails ends it there and then.
    method FirePending(now: int, reply: nat -> Reply) returns (ok: bool)
      modifies this`pending, this`out, this`dropped
      ensures var asks, mine := old(pending), HashIn(store.areas, hash);
              var n := FailsAt(asks, now, mine, reply, 0);
              && ok == (n == |asks|)
              && pending == Remaining(asks, now, mine, reply)
              && out == old(out) + Fired(asks[..n], now, mine, reply)
              && dropped == old(dropped) + Answers(asks[..n], now, mine, reply)
    {
      hide Kept, Compacted, Fired, Answers, FailsAt, HashIn, VectorIn;
      ghost var mine := HashIn(store.areas, hash);
      ghost var asks := pending;
      var count, i := 0, 0;
      NothingFired(now, mine, reply);
      CompactedAtTheEnd(asks, now, mine, reply);
      while i < |pending|
        invariant 0 <= i <= |asks| == |pending|
        invariant FailsAt(asks, now, mine, reply, 0) == FailsAt(asks, now, mine, reply, i)
        invariant count == |Kept(asks[..i], now, mine, reply)| <= i
        invariant pending == Compacted(asks, now, mine, reply, i)
        invariant out == old(out) + Fired(asks[..i], now, mine, reply)
        invariant dropped == old(dropped) + Answers(asks[..i], now, mine, reply)
      {
        var ask := pending[i];
        OneMoreFired(asks, now, mine, reply, i);
        FailsHereOrLater(asks, now, mine, reply, i);
        CompactedOneMore(asks, now, mine, reply, i);
        HashInIs(store.areas, hash, ask.area);
        if now < ask.at {
          pending := pending[count := ask];
          count, i := count + 1, i + 1;
          continue;
        }
        if hash(VectorOf(ask.area)) == ask.wantHash {
          dropped, i := dropped + 1, i + 1;
          continue;
        }
        var answer := reply(i);
        if answer == NoBudget {
          pending := pending[count := ask];
          count, i := count + 1, i + 1;
          continue;
        }
        if answer == Failed {
          return false;
        }
        out := out + [AskVector(ask.peer, ask.area)];
        i := i + 1;
      }
      assert asks[..|asks|] == asks;
      assert FailsAt(asks, now, mine, reply, |asks|) == |asks|;
      pending := pending[..count];
      ok := true;
    }

    // The heartbeat: fire what is due, then a digest if the schedule, the carried areas and the governor say so.
    method Tick(now: int, replies: nat -> Reply, noted: int, beat: S.Beat, reply: Reply) returns (ok: bool)
      modifies this`pending, this`out, this`dropped
      modifies sched`last, sched`due, sched`heardMatching, sched`suppressed, sched`sent
      ensures var asks, mine := old(pending), HashIn(store.areas, hash);
              var n := FailsAt(asks, now, mine, replies, 0);
              var fired := Fired(asks[..n], now, mine, replies);
              && pending == Remaining(asks, now, mine, replies)
              && dropped == old(dropped) + Answers(asks[..n], now, mine, replies)
              && if n < |asks| then !ok && out == old(out) + fired && sched.Value() == old(sched.Value())
                 else
                   var due := S.Asked(sched.cfg, old(sched.Value()), now, beat).1;
                   var outcome := if store.areas == map[] then S.NothingFederated
                                  else if reply == Taken then S.Broadcast(DigestSize()) else S.HeldBack;
                   && ok == !(due && store.areas != map[] && reply == Failed)
                   && out == old(out) + fired + (if due && outcome.Broadcast? then [Announce(DigestSize())] else [])
                   && forall basis, sent :: sched.Value() ==
                        S.Step(sched.cfg, S.Run(old(sched.Value()), basis, sent), S.Tick(now, noted, beat, outcome)).s
    {
      ok := FirePending(now, replies);
      if !ok {
        return;
      }
      var due := sched.Due(now, beat);
      if !due {
        return;
      }
      if |store.areas| == 0 {
        sched.MarkSent(noted, beat.(size := 0));
        return;
      }
      match reply {
        case NoBudget => return;
        case Failed => return false;
        case Taken =>
      }
      out := out + [Announce(DigestSize())];
      sched.MarkSent(noted, beat.(size := DigestSize()));
    }

    method LowestThatFit(area: AreaTag, found: seq<Range>) returns (sorted: seq<Range>)
      ensures sorted == Wanted(found, limits.maxRanges)
    {
      var ranges := new Range[|found|](i requires 0 <= i < |found| => found[i]);
      assert ranges[..] == found;
      SortInPlace(ByFrom, ranges);
      sorted := ranges[..];
      if |sorted| > limits.maxRanges {
        sorted := sorted[..limits.maxRanges];
      }
      sorted := FitRanges(area, sorted, MAX_CONTROL_MESSAGE);
    }

    // A peer's full vector: ask for what we lack, lowest sequences first.
    method OnVector(peer: NodeID, area: AreaTag, theirs: Vector, reply: Reply)
      returns (ok: bool, ghost missing: seq<Range>)
      requires forall o: NodeID :: Get(theirs, o) < 0x1_0000_0000_0000_0000
      modifies this`out
      ensures area in store.areas ==> IsDelta(missing, VectorOf(area), theirs)
      ensures var asks := area in store.areas && missing != [] && Wanted(missing, limits.maxRanges) != [];
              && ok == !(asks && reply == Failed)
              && out == old(out) + (if asks && reply == Taken
                                    then [AskRanges(peer, RangeReq(area, Wanted(missing, limits.maxRanges)))] else [])
    {
      ok, missing := true, [];
      if area !in store.areas {
        return;
      }
      var found := ComputeMissing(VectorOf(area), theirs);
      missing := found;
      if |found| == 0 {
        return;
      }
      var sorted := LowestThatFit(area, found);
      if |sorted| == 0 {
        return;
      }
      match reply {
        case NoBudget => return;
        case Failed => return false, missing;
        case Taken => out := out + [AskRanges(peer, RangeReq(area, sorted))];
      }
    }

    // A bundle goes out: who ought to gain from it, and that it announced our state.
    method Broadcasted(area: AreaTag, recs: seq<Record>, now: int, noted: int, beat: S.Beat)
      modifies this`out, this`peers, sched`last, sched`heardMatching, sched`due
      ensures Pushed(old(out), old(peers), old(sched.Value()), area, recs, now, noted, beat)
    {
      out := out + [PushRecords(area, recs)];
      NoteAwaited(area, |recs|, now);
      sched.NoteTransmitted(noted, beat.(size := DigestSize()));
    }

    ghost predicate Pushed(was: seq<Outgoing>, known: map<NodeID, PeerState>, before: S.State, area: AreaTag,
                           recs: seq<Record>, now: int, noted: int, beat: S.Beat)
      reads this, store, sched
    {
      && out == was + [PushRecords(area, recs)]
      && peers.Keys == known.Keys
      && (forall p :: p in known ==> peers[p] == Expecting(known[p], area, |recs|, now))
      && sched.Value() == S.Transmitted(sched.cfg, before, noted, beat.(size := DigestSize()))
    }

    // A delta request is answered by broadcasting the records.
    method OnRangeReq(request: RangeReq, now: int, reply: Reply, noted: int, beat: S.Beat) returns (ok: bool)
      modifies this`out, this`peers, sched`last, sched`heardMatching, sched`due
      ensures var push := if request.area in store.areas
                          then Collected(store.areas[request.area], request.ranges, limits.maxPush) else [];
              && ok == !(push != [] && reply == Failed)
              && if push != [] && reply == Taken
                 then Pushed(old(out), old(peers), old(sched.Value()), request.area, push, now, noted, beat)
                 else out == old(out) && peers == old(peers) && sched.Value() == old(sched.Value())
    {
      if request.area !in store.areas {
        return true;
      }
      var push := CollectRecords(request);
      if |push| == 0 {
        return true;
      }
      match reply {
        case NoBudget => return true;
        case Failed => return false;
        case Taken =>
      }
      Broadcasted(request.area, push, now, noted, beat);
      ok := true;
    }

    method RecordsOf(area: AreaTag, r: Range, room: nat) returns (recs: seq<Record>)
      requires area in store.areas
      ensures recs == FirstOf(RangeOf(Slots(store.areas[area], r.origin), r.from, r.to), room)
    {
      recs := store.Records(area, r.origin, r.from, r.to);
      if |recs| > room {
        recs := recs[..room];
      }
    }

    method CollectRecords(request: RangeReq) returns (push: seq<Record>)
      requires request.area in store.areas
      ensures push == Collected(store.areas[request.area], request.ranges, limits.maxPush)
    {
      hide Collected, RangeOf;
      ghost var log := store.areas[request.area];
      ghost var whole := Collected(log, request.ranges, limits.maxPush);
      push := [];
      var i := 0;
      assert request.ranges[0..] == request.ranges;
      while i < |request.ranges|
        invariant 0 <= i <= |request.ranges| && |push| <= limits.maxPush
        invariant push + Collected(log, request.ranges[i..], limits.maxPush - |push|) == whole
      {
        var room := limits.maxPush - |push|;
        CollectedNext(log, request.ranges, i, room);
        if |push| >= limits.maxPush {
          return;
        }
        var recs := RecordsOf(request.area, request.ranges[i], room);
        Associates(push, recs, Collected(log, request.ranges[i + 1..], room - |recs|));
        push := push + recs;
        i := i + 1;
      }
      CollectedNext(log, request.ranges, i, limits.maxPush - |push|);
    }

    // Locally authored records are stored first and broadcast if the governor allows: a refusal or a failed
    // send costs nothing but the push.
    method Publish(area: AreaTag, recs: seq<Record>, now: int, reply: Reply, noted: int, beat: S.Beat)
      returns (ok: bool)
      modifies store`areas, store`rejected, this`out, this`peers, sched`last, sched`heardMatching, sched`due
      ensures var stored := recs != [] && area in old(store.areas);
              && ok == (recs == [] || (stored && reply != Failed))
              && store.areas ==
                   (if stored
                    then old(store.areas)[area := Applied(store.trust, area, old(store.areas)[area], recs)]
                    else old(store.areas))
              && if stored && reply == Taken
                 then Pushed(old(out), old(peers), old(sched.Value()), area, recs, now, noted, beat)
                 else out == old(out) && peers == old(peers) && sched.Value() == old(sched.Value())
    {
      if |recs| == 0 {
        return true;
      }
      var applied;
      applied, ok := store.Apply(area, recs);
      if !ok {
        return;
      }
      match reply {
        case NoBudget => return true;
        case Failed => return false;
        case Taken =>
      }
      Broadcasted(area, recs, now, noted, beat);
    }
  }

  /** What silences us says something: a digest that names no area we carry never does, nor one that differs in any. */
  lemma AgreementIsAboutSomething(e: Engine, areas: seq<AreaState>, a: AreaState)
    ensures (forall b :: b in areas ==> b.tag !in e.store.areas) ==> !e.Matches(areas)
    ensures a in areas && a.tag in e.store.areas && e.hash(e.VectorOf(a.tag)) != a.hash ==> !e.Matches(areas)
    ensures a in areas && e.Matches(areas) && a.tag in e.store.areas ==> !e.Motivates(a)
  {
  }

  // Cause to ask: divergence, unless we are ahead by count.
  ghost predicate Causes(hash: Vector -> AreaTag, mine: Vector, a: AreaState) {
    hash(mine) != a.hash && !(SaturatingCount(Count(mine)) > a.count)
  }

  /** What a broadcast of `added` records leads to: a peer heard of in the area, and not yet at the limit of what it can
      count, is judged by its next digest, as having got them exactly if its count has risen by that many, or to the
      limit; nobody else is judged for it. */
  lemma BroadcastIsJudgedByItsGain(p: PeerState, area: AreaTag, added: nat, now: int, a: AreaState)
    requires added > 0 && a.tag == area && area !in p.awaiting
    ensures Landings(Expecting(p, area, added, now), [a]) ==
            if area in p.lastDigest && p.lastDigest[area].count < MAX_SATURATED_COUNT
            then [a.count >= p.lastDigest[area].count + added || a.count == MAX_SATURATED_COUNT] else []
  {
    var q := Expecting(p, area, added, now);
    assert [a][..0] == [] && HeardAll(q, []) == q && Landings(q, []) == [];
  }

  // How a node holding this vector describes an area in its digest.
  ghost function Described(area: AreaTag, hash: Vector -> AreaTag, v: Vector): AreaState {
    AreaState(area, hash(v), SaturatingCount(Count(v)))
  }

  /** An entry motivates an ask exactly when the decision the convergence results speak of says so. */
  lemma MotivesAreThoseOfConvergence(e: Engine, area: AreaTag, theirs: Vector)
    requires area in e.store.areas
    ensures e.Motivates(Described(area, e.hash, theirs)) <==> Asks(e.hash, e.VectorOf(area), theirs)
  {
  }

  /** Of two nodes that carry an area and whose vectors and hashes differ there, one is moved to ask by the
      other's digest, and a vector exchange shows it something to fetch. */
  lemma OneOfTwoIsMoved(d: Engine, e: Engine, area: AreaTag)
    requires d.hash == e.hash && area in d.store.areas && area in e.store.areas
    requires !SameVector(d.VectorOf(area), e.VectorOf(area)) && d.hash(d.VectorOf(area)) != d.hash(e.VectorOf(area))
    ensures (d.Motivates(Described(area, d.hash, e.VectorOf(area))) && Behind(d.VectorOf(area), e.VectorOf(area))) ||
            (e.Motivates(Described(area, d.hash, d.VectorOf(area))) && Behind(e.VectorOf(area), d.VectorOf(area)))
  {
    MotivesAreThoseOfConvergence(d, area, e.VectorOf(area));
    MotivesAreThoseOfConvergence(e, area, d.VectorOf(area));
    SomeoneAsksAndLearns(d.hash, d.VectorOf(area), e.VectorOf(area));
  }

  lemma Associates(a: seq<Record>, b: seq<Record>, c: seq<Record>)
    ensures a + (b + c) == a + b + c
  {
  }

  lemma CollectedNext(log: AreaLog, ranges: seq<Range>, i: nat, room: nat)
    requires i <= |ranges|
    ensures Collected(log, ranges[i..], room) ==
            if i == |ranges| || room == 0 then []
            else
              var all := RangeOf(Slots(log, ranges[i].origin), ranges[i].from, ranges[i].to);
              var part := if |all| > room then all[..room] else all;
              part + Collected(log, ranges[i + 1..], room - |part|)
  {
    if i < |ranges| {
      assert ranges[i..][1..] == ranges[i + 1..];
    }
  }

  // What theirs has over mine, origin by origin.
  method ComputeMissing(mine: Vector, theirs: Vector) returns (ranges: seq<Range>)
    requires forall o: NodeID :: Get(theirs, o) < 0x1_0000_0000_0000_0000
    ensures IsDelta(ranges, mine, theirs)
  {
    ranges := [];
    var todo := theirs.Keys;
    while todo != {}
      invariant todo <= theirs.Keys
      invariant PartialDelta(ranges, mine, theirs, theirs.Keys - todo)
      decreases todo
    {
      var o :| o in todo;
      ghost var before := ranges;
      assert Get(theirs, o) == theirs[o];
      if Get(mine, o) < theirs[o] {
        ranges := ranges + [Range(o, Get(mine, o) + 1, theirs[o])];
      }
      DeltaGrows(before, ranges, mine, theirs, theirs.Keys - todo, o);
      assert theirs.Keys - todo + {o} == theirs.Keys - (todo - {o});
      todo := todo - {o};
    }
    assert theirs.Keys - todo == theirs.Keys;
    forall o: NodeID | Get(mine, o) < Get(theirs, o)
      ensures exists r :: r in ranges && r.origin == o
    {
      assert o in theirs.Keys;
    }
  }

  lemma DeltaGrows(before: seq<Range>, after: seq<Range>, mine: Vector, theirs: Vector, S: set<NodeID>, o: NodeID)
    requires PartialDelta(before, mine, theirs, S) && o !in S && o in theirs && theirs[o] < 0x1_0000_0000_0000_0000
    requires after == if Get(mine, o) < theirs[o] then before + [Range(o, Get(mine, o) + 1, theirs[o])] else before
    ensures PartialDelta(after, mine, theirs, S + {o})
  {
    assert forall r :: r in before ==> r in after;
    if Get(mine, o) < theirs[o] {
      assert after[|before|] in after && after[|before|].origin == o;
    }
  }

  function VectorIn(areas: map<AreaTag, AreaLog>, area: AreaTag): Vector {
    if area in areas then areas[area].vector else map[]
  }

  function HashIn(areas: map<AreaTag, AreaLog>, hash: Vector -> AreaTag): AreaTag -> AreaTag {
    (area: AreaTag) => hash(VectorIn(areas, area))
  }

  lemma HashInIs(areas: map<AreaTag, AreaLog>, hash: Vector -> AreaTag, area: AreaTag)
    ensures HashIn(areas, hash)(area) == hash(VectorIn(areas, area))
  {
  }

  function PeerIn(peers: map<NodeID, PeerState>, peer: NodeID): PeerState {
    if peer in peers then peers[peer] else PeerState(map[], map[], None)
  }

  lemma PeerReplaced(peers: map<NodeID, PeerState>, peer: NodeID, p: PeerState, q: PeerState)
    ensures PeerIn(peers[peer := p], peer) == p
    ensures peers[peer := p][peer := q] == peers[peer := q]
  {
  }

  function Expecting(p: PeerState, area: AreaTag, added: nat, now: int): PeerState {
    if added == 0 || area !in p.lastDigest || p.lastDigest[area].count >= MAX_SATURATED_COUNT then p
    else p.(awaiting := p.awaiting[area :=
           AwaitedPush(Min(p.lastDigest[area].count + added, MAX_SATURATED_COUNT), now)])
  }
}
