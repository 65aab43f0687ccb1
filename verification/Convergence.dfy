/** Why a federation of nodes that keep exchanging digests ends with equal vectors everywhere. */
module Convergence {
  import opened Bytes
  import opened Bundle
  import opened Store
  import opened GossipWire
  import opened AntiEntropy

  type Slot = (NodeID, nat)

  ghost function Filled(log: AreaLog): set<Slot> {
    set o, s | o in log.records.Keys && s in log.records[o].Keys :: (o, s)
  }

  lemma FilledMeansSlot(log: AreaLog, o: NodeID, s: nat)
    ensures (o, s) in Filled(log) <==> s in Slots(log, o)
  {
  }

  /** What Apply counts as applied is how many slots it filled. */
  lemma {:induction false} AppliedAreSlotsFilled(t: Trust, area: AreaTag, log: AreaLog, recs: seq<Record>)
    ensures |Filled(FileAll(t, area, log, recs))| == |Filled(log)| + NewCount(t, area, log, recs)
  {
    if recs != [] {
      var last := recs[|recs| - 1];
      var before := FileAll(t, area, log, recs[..|recs| - 1]);
      AppliedAreSlotsFilled(t, area, log, recs[..|recs| - 1]);
      hide Admits;
      if last.seqNo !in Slots(before, last.origin) {
        FilingFillsOne(before, last);
      }
    }
  }

  lemma FilingFillsOne(log: AreaLog, r: Record)
    requires r.seqNo !in Slots(log, r.origin)
    ensures Filled(File(log, r)) == Filled(log) + {(r.origin, r.seqNo as nat)}
    ensures |Filled(File(log, r))| == |Filled(log)| + 1
  {
    forall o: NodeID, k: nat
      ensures (o, k) in Filled(File(log, r)) <==> (o, k) in Filled(log) || (o == r.origin && k == r.seqNo)
    {
      FilledMeansSlot(log, o, k);
      FilledMeansSlot(File(log, r), o, k);
    }
    FilledMeansSlot(log, r.origin, r.seqNo);
    assert Filled(File(log, r)) == Filled(log) + {(r.origin, r.seqNo as nat)};
  }

  // N nodes, each trusting the authors of everything any of them holds; U bounds what exists.
  ghost predicate Federated(area: AreaTag, nodes: seq<AreaLog>, trusts: seq<Trust>, U: set<Slot>) {
    && |nodes| == |trusts|
    && (forall n :: 0 <= n < |nodes| ==> Exact(nodes[n]) && Filled(nodes[n]) <= U)
    && (forall m, n :: 0 <= m < |nodes| && 0 <= n < |nodes| ==> Authentic(trusts[m], area, nodes[n]))
  }

  // How many slots are still empty somewhere.
  ghost function Gap(nodes: seq<AreaLog>, U: set<Slot>): nat {
    if nodes == [] then 0 else |U - Filled(nodes[0])| + Gap(nodes[1..], U)
  }

  datatype Exchange = Exchange(asker: nat, peer: nat, missing: seq<Range>)

  // An exchange with something to ask for.
  ghost predicate Productive(nodes: seq<AreaLog>, x: Exchange) {
    && x.asker < |nodes| && x.peer < |nodes| && x.missing != []
    && IsDelta(x.missing, nodes[x.asker].vector, nodes[x.peer].vector)
  }

  ghost function Exchanged(area: AreaTag, nodes: seq<AreaLog>, trusts: seq<Trust>, lim: Limits, x: Exchange)
    : seq<AreaLog>
    requires |nodes| == |trusts| && x.asker < |nodes| && x.peer < |nodes|
  {
    nodes[x.asker := AfterRound(trusts[x.asker], area, nodes[x.asker], nodes[x.peer], x.missing, lim)]
  }

  // What was pushed came from the peer, so whoever trusts both logs trusts the result.
  lemma RoundKeepsTrust(t: Trust, u: Trust, area: AreaTag, mine: AreaLog, theirs: AreaLog, missing: seq<Range>,
                        lim: Limits)
    requires Exact(mine) && Authentic(u, area, mine) && Authentic(u, area, theirs)
    ensures Authentic(u, area, AfterRound(t, area, mine, theirs, missing, lim))
    ensures Filled(AfterRound(t, area, mine, theirs, missing, lim)) <= Filled(mine) + Filled(theirs)
    ensures Filled(mine) <= Filled(AfterRound(t, area, mine, theirs, missing, lim))
  {
    var push := Collected(theirs, SortedReq(RangeReq(area, Wanted(missing, lim.maxRanges))).ranges, lim.maxPush);
    var after := AfterRound(t, area, mine, theirs, missing, lim);
    hide Applied, Admits, Wanted, Collected;
    forall o: NodeID, k: nat | k in Slots(after, o)
      ensures var r := Slots(after, o)[k]; Admits(u, area, r) && r.origin == o && r.seqNo == k
      ensures k in Slots(mine, o) || k in Slots(theirs, o)
    {
      assert IsHighWater(Slots(mine, o), Get(mine.vector, o));
      ApplyAtOrigin(t, area, mine, push, o);
      FiledFromSomewhere(t, area, mine, push, o, k);
      if k !in Slots(mine, o) {
        var r := Slots(after, o)[k];
        CollectedIsHeld(u, area, theirs, SortedReq(RangeReq(area, Wanted(missing, lim.maxRanges))).ranges,
          lim.maxPush, r);
        SlotIsAuthentic(u, area, theirs, r.origin, r.seqNo);
      }
    }
    forall o: NodeID, k: nat
      ensures (o, k) in Filled(after) <==> k in Slots(after, o)
      ensures (o, k) in Filled(mine) <==> k in Slots(mine, o)
      ensures (o, k) in Filled(theirs) <==> k in Slots(theirs, o)
    {
    }
    ApplyKeepsTheLog(t, area, mine, push);
  }

  lemma {:induction false} GapAfterUpdate(nodes: seq<AreaLog>, n: nat, log: AreaLog, U: set<Slot>)
    requires n < |nodes| && |U - Filled(log)| < |U - Filled(nodes[n])|
    ensures Gap(nodes[n := log], U) < Gap(nodes, U)
  {
    hide Filled;
    if n == 0 {
      assert nodes[n := log][1..] == nodes[1..];
    } else {
      GapAfterUpdate(nodes[1..], n - 1, log, U);
      assert nodes[n := log][1..] == nodes[1..][n - 1 := log];
    }
  }

  lemma SmallerRemainder(U: set<Slot>, A: set<Slot>, B: set<Slot>, x: Slot)
    requires A <= B && x in U && x in B && x !in A
    ensures |U - B| < |U - A|
  {
    assert U - B <= (U - A) - {x};
    Cardinalities(U - B, (U - A) - {x});
  }

  lemma {:induction false} Cardinalities(A: set<Slot>, B: set<Slot>)
    requires A <= B
    ensures |A| <= |B|
    decreases A
  {
    if A != {} {
      var x :| x in A;
      Cardinalities(A - {x}, B - {x});
    }
  }

  /** Every productive exchange keeps the federation in order and fills at least one empty slot. */
  lemma ExchangeNarrowsTheGap(area: AreaTag, nodes: seq<AreaLog>, trusts: seq<Trust>, U: set<Slot>, lim: Limits,
                              x: Exchange)
    requires Federated(area, nodes, trusts, U) && Productive(nodes, x) && lim.maxRanges >= 1 && lim.maxPush >= 1
    ensures Federated(area, Exchanged(area, nodes, trusts, lim, x), trusts, U)
    ensures Gap(Exchanged(area, nodes, trusts, lim, x), U) < Gap(nodes, U)
  {
    hide AfterRound, Authentic, Filled, Exact, IsDelta;
    var mine, theirs, t := nodes[x.asker], nodes[x.peer], trusts[x.asker];
    var after := AfterRound(t, area, mine, theirs, x.missing, lim);
    var nodes' := Exchanged(area, nodes, trusts, lim, x);
    var r := RoundAdvances(t, area, mine, theirs, x.missing, lim);
    forall m | 0 <= m < |trusts|
      ensures Authentic(trusts[m], area, after)
    {
      RoundKeepsTrust(t, trusts[m], area, mine, theirs, x.missing, lim);
    }
    RoundKeepsTrust(t, t, area, mine, theirs, x.missing, lim);
    RoundIsExact(t, area, mine, theirs, x.missing, lim);
    FilledMeansSlot(mine, r.origin, r.seqNo);
    FilledMeansSlot(theirs, r.origin, r.seqNo);
    FilledMeansSlot(after, r.origin, r.seqNo);
    SmallerRemainder(U, Filled(mine), Filled(after), (r.origin, r.seqNo as nat));
    GapAfterUpdate(nodes, x.asker, after, U);
  }

  lemma RoundIsExact(t: Trust, area: AreaTag, mine: AreaLog, theirs: AreaLog, missing: seq<Range>, lim: Limits)
    requires Exact(mine)
    ensures Exact(AfterRound(t, area, mine, theirs, missing, lim))
  {
    var push := Collected(theirs, SortedReq(RangeReq(area, Wanted(missing, lim.maxRanges))).ranges, lim.maxPush);
    ApplyKeepsTheLog(t, area, mine, push);
  }

  ghost predicate ProductiveRun(area: AreaTag, nodes: seq<AreaLog>, trusts: seq<Trust>, lim: Limits, run: seq<Exchange>)
    requires |nodes| == |trusts|
    decreases |run|
  {
    run != [] ==>
      && Productive(nodes, run[0])
      && ProductiveRun(area, Exchanged(area, nodes, trusts, lim, run[0]), trusts, lim, run[1..])
  }

  ghost function AfterRun(area: AreaTag, nodes: seq<AreaLog>, trusts: seq<Trust>, lim: Limits, run: seq<Exchange>)
    : seq<AreaLog>
    requires |nodes| == |trusts| && ProductiveRun(area, nodes, trusts, lim, run)
    decreases |run|
  {
    if run == [] then nodes else AfterRun(area, Exchanged(area, nodes, trusts, lim, run[0]), trusts, lim, run[1..])
  }

  /** No run of productive exchanges, between whichever nodes and in whatever order, is longer than the
      number of slots that were empty somewhere at its start. */
  lemma {:induction false} RunsAreBounded(area: AreaTag, nodes: seq<AreaLog>, trusts: seq<Trust>, U: set<Slot>,
                                          lim: Limits, run: seq<Exchange>)
    requires Federated(area, nodes, trusts, U) && lim.maxRanges >= 1 && lim.maxPush >= 1
    requires ProductiveRun(area, nodes, trusts, lim, run)
    ensures Federated(area, AfterRun(area, nodes, trusts, lim, run), trusts, U)
    ensures |run| + Gap(AfterRun(area, nodes, trusts, lim, run), U) <= Gap(nodes, U)
    decreases |run|
  {
    hide Authentic, Exact, Filled, IsDelta, AfterRound, Gap;
    if run != [] {
      ExchangeNarrowsTheGap(area, nodes, trusts, U, lim, run[0]);
      RunsAreBounded(area, Exchanged(area, nodes, trusts, lim, run[0]), trusts, U, lim, run[1..]);
    }
  }

  // ---- and while vectors differ, a productive exchange is there to be had ------------------------------------

  lemma MarksAreUint64(t: Trust, area: AreaTag, log: AreaLog, o: NodeID)
    requires Exact(log) && Authentic(t, area, log)
    ensures Get(log.vector, o) < 0x1_0000_0000_0000_0000
  {
    var h := Get(log.vector, o);
    assert IsHighWater(Slots(log, o), h);
    if h > 0 {
      SlotIsAuthentic(t, area, log, o, h);
    }
  }

  ghost predicate PartialDelta(ranges: seq<Range>, mine: Vector, theirs: Vector, S: set<NodeID>) {
    && (forall r :: r in ranges ==> r.origin in S && r.from == Get(mine, r.origin) + 1 <= r.to == Get(theirs, r.origin))
    && (forall i, j :: 0 <= i < |ranges| && 0 <= j < |ranges| && i != j ==> ranges[i].origin != ranges[j].origin)
    && (forall o: NodeID :: o in S && Get(mine, o) < Get(theirs, o) ==> exists r :: r in ranges && r.origin == o)
  }

  lemma {:induction false} DeltaOver(mine: Vector, theirs: Vector, S: set<NodeID>) returns (ranges: seq<Range>)
    requires forall o: NodeID :: Get(theirs, o) < 0x1_0000_0000_0000_0000
    ensures PartialDelta(ranges, mine, theirs, S)
    decreases S
  {
    if S == {} {
      return [];
    }
    var o :| o in S;
    var rest := DeltaOver(mine, theirs, S - {o});
    if Get(mine, o) < Get(theirs, o) {
      ranges := rest + [Range(o, Get(mine, o) + 1, Get(theirs, o))];
      assert ranges[|rest|].origin == o;
      assert ranges[|rest|] in ranges;
      assert forall r :: r in rest ==> r in ranges;
    } else {
      ranges := rest;
    }
  }

  /** A node that is behind has a delta to ask for. */
  lemma BehindHasADelta(t: Trust, area: AreaTag, mine: Vector, theirs: AreaLog) returns (ranges: seq<Range>)
    requires Exact(theirs) && Authentic(t, area, theirs) && Behind(mine, theirs.vector)
    ensures ranges != [] && IsDelta(ranges, mine, theirs.vector)
  {
    forall o: NodeID
      ensures Get(theirs.vector, o) < 0x1_0000_0000_0000_0000
    {
      MarksAreUint64(t, area, theirs, o);
    }
    ranges := DeltaOver(mine, theirs.vector, theirs.vector.Keys);
    var o: NodeID :| Get(mine, o) < Get(theirs.vector, o);
    assert o in theirs.vector.Keys;
  }

  /** While any two vectors differ, absent a hash collision between them, hearing each other's digest makes
      one of the two ask, and that exchange is productive. */
  lemma DifferenceLeadsToAnExchange(area: AreaTag, nodes: seq<AreaLog>, trusts: seq<Trust>, U: set<Slot>,
                                    hash: Vector -> AreaTag, m: nat, n: nat) returns (x: Exchange)
    requires Federated(area, nodes, trusts, U) && m < |nodes| && n < |nodes|
    requires !SameVector(nodes[m].vector, nodes[n].vector) && hash(nodes[m].vector) != hash(nodes[n].vector)
    ensures Productive(nodes, x) && Asks(hash, nodes[x.asker].vector, nodes[x.peer].vector)
    ensures (x.asker == m && x.peer == n) || (x.asker == n && x.peer == m)
  {
    var a, b := nodes[m].vector, nodes[n].vector;
    SomeoneAsksAndLearns(hash, a, b);
    if Asks(hash, a, b) && Behind(a, b) {
      var missing := BehindHasADelta(trusts[m], area, a, nodes[n]);
      x := Exchange(m, n, missing);
    } else {
      var missing := BehindHasADelta(trusts[n], area, b, nodes[m]);
      x := Exchange(n, m, missing);
    }
  }

  // Nobody who hears anybody's digest both asks and has something to learn.
  ghost predicate Quiet(nodes: seq<AreaLog>, hash: Vector -> AreaTag) {
    forall x: Exchange :: Productive(nodes, x) ==> !Asks(hash, nodes[x.asker].vector, nodes[x.peer].vector)
  }

  /** A federation that has gone quiet has converged: every two vectors agree. */
  lemma QuietMeansConverged(area: AreaTag, nodes: seq<AreaLog>, trusts: seq<Trust>, U: set<Slot>,
                            hash: Vector -> AreaTag, m: nat, n: nat)
    requires Federated(area, nodes, trusts, U) && Quiet(nodes, hash) && m < |nodes| && n < |nodes|
    requires hash(nodes[m].vector) == hash(nodes[n].vector) ==> SameVector(nodes[m].vector, nodes[n].vector)
    ensures SameVector(nodes[m].vector, nodes[n].vector)
  {
    if !SameVector(nodes[m].vector, nodes[n].vector) {
      var x := DifferenceLeadsToAnExchange(area, nodes, trusts, U, hash, m, n);
    }
  }
}
