/** From any state a run of the federation may have reached, talking leads to agreement. */
module Agreement {
  import opened Bytes
  import opened Bundle
  import opened Store
  import opened GossipWire
  import opened AntiEntropy
  import opened Convergence

  // Whatever one node admits of what was authored, every node does.
  ghost predicate TrustAlike(area: AreaTag, s: System) {
    forall m, n, r :: 0 <= m < |s.trusts| && 0 <= n < |s.trusts| && r in s.authored && Admits(s.trusts[m], area, r) ==>
                        Admits(s.trusts[n], area, r)
  }

  // Every slot filled somewhere.
  ghost function Everything(nodes: seq<AreaLog>): set<Slot> {
    if nodes == [] then {} else Filled(nodes[0]) + Everything(nodes[1..])
  }

  lemma {:induction false} FilledIsPart(nodes: seq<AreaLog>, n: nat)
    requires n < |nodes|
    ensures Filled(nodes[n]) <= Everything(nodes)
  {
    hide Filled;
    if n > 0 {
      FilledIsPart(nodes[1..], n - 1);
    }
  }

  lemma AuthenticForAll(area: AreaTag, s: System, m: nat, n: nat)
    requires Sound(area, s) && TrustAlike(area, s) && m < |s.nodes| && n < |s.nodes|
    ensures Authentic(s.trusts[m], area, s.nodes[n])
  {
    forall o: NodeID, k | k in Slots(s.nodes[n], o)
      ensures var r := Slots(s.nodes[n], o)[k];
              r in s.authored && Admits(s.trusts[m], area, r) && r.origin == o && r.seqNo == k
    {
      SlotIsAuthentic(s.trusts[n], area, s.nodes[n], o, k);
    }
  }

  /** A sound system whose nodes trust alike is a federation, over the slots filled somewhere. */
  lemma SoundIsFederated(area: AreaTag, s: System)
    requires Sound(area, s) && TrustAlike(area, s)
    ensures Federated(area, s.nodes, s.trusts, Everything(s.nodes))
  {
    hide Filled, Everything, Authentic, TrustAlike, Exact;
    forall n | 0 <= n < |s.nodes|
      ensures Filled(s.nodes[n]) <= Everything(s.nodes)
    {
      FilledIsPart(s.nodes, n);
    }
    forall m, n | 0 <= m < |s.nodes| && 0 <= n < |s.nodes|
      ensures Authentic(s.trusts[m], area, s.nodes[n])
    {
      AuthenticForAll(area, s, m, n);
    }
  }

  // ---- an exchange as two steps of the system ------------------------------------------------------------

  // What the peer broadcasts in answer.
  ghost function Answer(area: AreaTag, s: System, lim: Limits, x: Exchange): seq<Record>
    requires x.peer < |s.nodes|
  {
    Collected(s.nodes[x.peer], SortedReq(RangeReq(area, Wanted(x.missing, lim.maxRanges))).ranges, lim.maxPush)
  }

  ghost function Steps(area: AreaTag, s: System, lim: Limits, x: Exchange): seq<Event>
    requires x.peer < |s.nodes|
  {
    [Push(x.peer, Answer(area, s, lim, x)), Deliver(x.asker, Answer(area, s, lim, x))]
  }

  /** An exchange is a push by the peer and its delivery to the asker. */
  lemma ExchangeIsTwoSteps(area: AreaTag, s: System, lim: Limits, x: Exchange)
    requires Sound(area, s) && x.asker < |s.nodes| && x.peer < |s.nodes|
    ensures var steps := Steps(area, s, lim, x);
            && Possible(area, s, steps)
            && var t := After(area, s, steps);
               && t.nodes == Exchanged(area, s.nodes, s.trusts, lim, x) && t.trusts == s.trusts
                 && t.authored == s.authored
  {
    var push := Answer(area, s, lim, x);
    forall r | r in push
      ensures Holds(s.nodes[x.peer], r)
    {
      CollectedIsHeld(s.trusts[x.peer], area, s.nodes[x.peer],
                      SortedReq(RangeReq(area, Wanted(x.missing, lim.maxRanges))).ranges, lim.maxPush, r);
    }
    hide Sound, Applied, Collected, Wanted, Holds;
    var steps := Steps(area, s, lim, x);
    var u := Next(area, s, steps[0]);
    var t := Next(area, u, steps[1]);
    assert steps[1..] == [steps[1]] && steps[1..][1..] == [];
    assert Possible(area, t, []) && After(area, t, []) == t;
    assert Possible(area, u, [steps[1]]) && After(area, u, [steps[1]]) == t;
  }

  lemma {:induction false} RunsJoin(area: AreaTag, s: System, first: seq<Event>, rest: seq<Event>)
    requires Possible(area, s, first) && Possible(area, After(area, s, first), rest)
    ensures Possible(area, s, first + rest) && After(area, s, first + rest) == After(area, After(area, s, first), rest)
    decreases |first|
  {
    if first == [] {
      assert first + rest == rest;
    } else {
      RunsJoin(area, Next(area, s, first[0]), first[1..], rest);
      assert (first + rest)[1..] == first[1..] + rest;
    }
  }

  // ---- agreement --------------------------------------------------------------------------------------------

  // Two nodes hold different vectors that hash alike.
  ghost predicate Collision(nodes: seq<AreaLog>, hash: Vector -> AreaTag) {
    exists m, n :: 0 <= m < |nodes| && 0 <= n < |nodes|
                   && hash(nodes[m].vector) == hash(nodes[n].vector) && !SameVector(nodes[m].vector, nodes[n].vector)
  }

  // Each exchange is one that hearing a digest leads to.
  ghost predicate Talk(area: AreaTag, hash: Vector -> AreaTag, nodes: seq<AreaLog>, trusts: seq<Trust>, lim: Limits,
                       run: seq<Exchange>)
    requires |nodes| == |trusts|
    decreases |run|
  {
    run != [] ==>
      && Productive(nodes, run[0]) && Asks(hash, nodes[run[0].asker].vector, nodes[run[0].peer].vector)
      && Talk(area, hash, Exchanged(area, nodes, trusts, lim, run[0]), trusts, lim, run[1..])
  }

  ghost predicate Agreed(nodes: seq<AreaLog>) {
    forall m, n :: 0 <= m < |nodes| && 0 <= n < |nodes| ==> SameVector(nodes[m].vector, nodes[n].vector)
  }

  lemma {:induction false} TalkIsProductive(area: AreaTag, hash: Vector -> AreaTag, nodes: seq<AreaLog>,
                                            trusts: seq<Trust>, lim: Limits, run: seq<Exchange>)
    requires |nodes| == |trusts| && Talk(area, hash, nodes, trusts, lim, run)
    ensures ProductiveRun(area, nodes, trusts, lim, run)
    decreases |run|
  {
    if run != [] {
      TalkIsProductive(area, hash, Exchanged(area, nodes, trusts, lim, run[0]), trusts, lim, run[1..]);
    }
  }

  // A mark is never stored at zero, so vectors that agree are the same.
  lemma SameVectorIsEqual(v: Vector, w: Vector)
    requires NoZeros(v) && NoZeros(w) && SameVector(v, w)
    ensures v == w
  {
    forall o: NodeID
      ensures (o in v <==> o in w) && (o in v ==> v[o] == w[o])
    {
      assert Get(v, o) == Get(w, o);
    }
  }

  // Every two vectors held hash alike.
  ghost predicate Alike(nodes: seq<AreaLog>, hash: Vector -> AreaTag) {
    forall m, n :: 0 <= m < |nodes| && 0 <= n < |nodes| ==> hash(nodes[m].vector) == hash(nodes[n].vector)
  }

  /** A federation is quiet exactly when every two vectors held hash alike, and then nobody asks at all. */
  lemma QuietExactlyWhenAlike(area: AreaTag, nodes: seq<AreaLog>, trusts: seq<Trust>, U: set<Slot>,
                              hash: Vector -> AreaTag)
    requires Federated(area, nodes, trusts, U)
    ensures Quiet(nodes, hash) <==> Alike(nodes, hash)
    ensures Quiet(nodes, hash) ==>
              forall m, n :: 0 <= m < |nodes| && 0 <= n < |nodes| ==> !Asks(hash, nodes[m].vector, nodes[n].vector)
  {
    assert forall n :: 0 <= n < |nodes| ==> Exact(nodes[n]) && NoZeros(nodes[n].vector);
    hide Federated, SameVector, NoZeros, Exact;
    if Quiet(nodes, hash) {
      forall m, n | 0 <= m < |nodes| && 0 <= n < |nodes|
        ensures hash(nodes[m].vector) == hash(nodes[n].vector)
      {
        if hash(nodes[m].vector) != hash(nodes[n].vector) {
          QuietMeansConverged(area, nodes, trusts, U, hash, m, n);
          SameVectorIsEqual(nodes[m].vector, nodes[n].vector);
        }
      }
    }
  }

  /** So one that has gone quiet has agreed exactly when no two different vectors held hash alike. */
  lemma QuietAgreesUnlessCollided(area: AreaTag, nodes: seq<AreaLog>, trusts: seq<Trust>, U: set<Slot>,
                                  hash: Vector -> AreaTag)
    requires Federated(area, nodes, trusts, U) && Quiet(nodes, hash)
    ensures Agreed(nodes) <==> !Collision(nodes, hash)
  {
    QuietExactlyWhenAlike(area, nodes, trusts, U, hash);
    hide SameVector, Federated;
  }

  /** However talk is scheduled, it ends: it is no longer than the number of slots empty somewhere, and where it
      can go no further all vectors agree, unless two different ones held there hash alike. */
  lemma TalkEndsInAgreement(area: AreaTag, hash: Vector -> AreaTag, nodes: seq<AreaLog>, trusts: seq<Trust>,
                            U: set<Slot>, lim: Limits, run: seq<Exchange>)
    requires Federated(area, nodes, trusts, U) && lim.maxRanges >= 1 && lim.maxPush >= 1
    requires Talk(area, hash, nodes, trusts, lim, run)
    ensures ProductiveRun(area, nodes, trusts, lim, run) && |run| <= Gap(nodes, U)
    ensures var after := AfterRun(area, nodes, trusts, lim, run);
            Quiet(after, hash) ==> (Agreed(after) <==> !Collision(after, hash))
  {
    hide Collision, Talk, Quiet, Agreed, Gap, Exact, Filled, Authentic;
    TalkIsProductive(area, hash, nodes, trusts, lim, run);
    RunsAreBounded(area, nodes, trusts, U, lim, run);
    var after := AfterRun(area, nodes, trusts, lim, run);
    if Quiet(after, hash) {
      QuietAgreesUnlessCollided(area, after, trusts, U, hash);
    }
  }

  // One more exchange in front.
  lemma TalkStarts(area: AreaTag, hash: Vector -> AreaTag, nodes: seq<AreaLog>, trusts: seq<Trust>, lim: Limits,
                   x: Exchange, run: seq<Exchange>)
    requires |nodes| == |trusts| && Productive(nodes, x) && Asks(hash, nodes[x.asker].vector, nodes[x.peer].vector)
    requires Talk(area, hash, Exchanged(area, nodes, trusts, lim, x), trusts, lim, run)
    ensures Talk(area, hash, nodes, trusts, lim, [x] + run)
  {
    hide Productive, Asks, Exchanged;
    assert ([x] + run)[1..] == run;
  }

  // Until it is quiet there is an exchange, and the system it leads to is nearer to agreement.
  lemma NextExchange(area: AreaTag, s: System, U: set<Slot>, hash: Vector -> AreaTag, lim: Limits) returns (x: Exchange)
    requires Sound(area, s) && Federated(area, s.nodes, s.trusts, U) && !Quiet(s.nodes, hash)
    requires lim.maxRanges >= 1 && lim.maxPush >= 1
    ensures Productive(s.nodes, x) && Asks(hash, s.nodes[x.asker].vector, s.nodes[x.peer].vector)
    ensures Possible(area, s, Steps(area, s, lim, x))
    ensures var t := After(area, s, Steps(area, s, lim, x));
            && t.nodes == Exchanged(area, s.nodes, s.trusts, lim, x) && t.trusts == s.trusts && t.authored == s.authored
            && Sound(area, t) && Federated(area, t.nodes, t.trusts, U) && Gap(t.nodes, U) < Gap(s.nodes, U)
  {
    hide Gap, Possible, After, Sound, Asks, Steps, Exchanged, SameVector, Exact, Filled, Authentic, IsDelta;
    x :| Productive(s.nodes, x) && Asks(hash, s.nodes[x.asker].vector, s.nodes[x.peer].vector);
    ExchangeNarrowsTheGap(area, s.nodes, s.trusts, U, lim, x);
    ExchangeIsTwoSteps(area, s, lim, x);
    RunsAreSafe(area, s, Steps(area, s, lim, x));
  }

  lemma NoTalk(area: AreaTag, s: System, hash: Vector -> AreaTag, lim: Limits)
    requires |s.nodes| == |s.trusts|
    ensures Talk(area, hash, s.nodes, s.trusts, lim, []) && Possible(area, s, []) && After(area, s, []) == s
  {
  }

  // And there is always talk that goes on until it is quiet.
  lemma {:induction false} TalkFrom(area: AreaTag, s: System, U: set<Slot>, hash: Vector -> AreaTag, lim: Limits)
    returns (run: seq<Exchange>, events: seq<Event>)
    requires Sound(area, s) && Federated(area, s.nodes, s.trusts, U)
    requires lim.maxRanges >= 1 && lim.maxPush >= 1
    ensures Talk(area, hash, s.nodes, s.trusts, lim, run) && |events| == 2 * |run|
    ensures Possible(area, s, events)
    ensures var t := After(area, s, events); t.trusts == s.trusts && t.authored == s.authored && Quiet(t.nodes, hash)
    ensures var t := After(area, s, events); Agreed(t.nodes) <==> !Collision(t.nodes, hash)
    decreases Gap(s.nodes, U)
  {
    NoTalk(area, s, hash, lim);
    hide Gap, Talk, Possible, After, Sound, Federated, Asks, Exchanged, SameVector, Quiet, Agreed, Collision;
    if Quiet(s.nodes, hash) {
      QuietAgreesUnlessCollided(area, s.nodes, s.trusts, U, hash);
      run, events := [], [];
    } else {
      var x := NextExchange(area, s, U, hash, lim);
      var steps := Steps(area, s, lim, x);
      var rest;
      run, rest := TalkFrom(area, After(area, s, steps), U, hash, lim);
      TalkStarts(area, hash, s.nodes, s.trusts, lim, x, run);
      RunsJoin(area, s, steps, rest);
      run, events := [x] + run, steps + rest;
    }
  }

  ghost predicate SameRecords(nodes: seq<AreaLog>) {
    forall m, n, o: NodeID, k: nat :: 0 <= m < |nodes| && 0 <= n < |nodes| && 1 <= k <= Get(nodes[m].vector, o) ==>
      k in Slots(nodes[m], o) && k in Slots(nodes[n], o) && Slots(nodes[m], o)[k] == Slots(nodes[n], o)[k]
  }

  /** So a sound system can always talk until it is quiet, by pushes and deliveries each asked for upon hearing a
      digest. All vectors then agree, unless two different ones held at the end hash alike; and, absent
      equivocation, so do all records as far as the vectors reach. */
  lemma SoundSystemsCanAgree(area: AreaTag, s: System, hash: Vector -> AreaTag, lim: Limits)
    returns (run: seq<Exchange>, events: seq<Event>)
    requires Sound(area, s) && TrustAlike(area, s) && lim.maxRanges >= 1 && lim.maxPush >= 1
    ensures Talk(area, hash, s.nodes, s.trusts, lim, run) && |events| == 2 * |run|
    ensures Possible(area, s, events)
    ensures var t := After(area, s, events);
            && Quiet(t.nodes, hash)
            && (Agreed(t.nodes) <==> !Collision(t.nodes, hash))
            && (!Collision(t.nodes, hash) && Unequivocal(s.authored) ==> SameRecords(t.nodes))
  {
    hide Everything, TrustAlike, Federated, Sound, Possible, After, Talk, Quiet, Agreed, Collision, SameRecords;
    SoundIsFederated(area, s);
    run, events := TalkFrom(area, s, Everything(s.nodes), hash, lim);
    RunsAreSafe(area, s, events);
    var t := After(area, s, events);
    if !Collision(t.nodes, hash) && Unequivocal(s.authored) {
      AgreementIsOnRecords(area, t);
    }
  }

  // Before anything is written, heard or sent.
  ghost predicate Booted(s: System) {
    |s.nodes| == |s.trusts| && (forall log :: log in s.nodes ==> log == AreaLog(map[], map[])) && s.air == {}
  }

  /** Every state a run reaches from booting is sound, whatever is written, lost, repeated or reordered. */
  lemma ReachableIsSound(area: AreaTag, s: System, run: seq<Event>)
    requires Booted(s) && Possible(area, s, run)
    ensures Sound(area, s) && Sound(area, After(area, s, run))
  {
    forall n | 0 <= n < |s.nodes|
      ensures Exact(s.nodes[n]) && Authentic(s.trusts[n], area, s.nodes[n]) && AllAuthored(s.nodes[n], s.authored)
    {
      assert s.nodes[n] in s.nodes;
    }
    assert Sound(area, s);
    hide Sound;
    RunsAreSafe(area, s, run);
  }

  lemma AgreementIsOnRecords(area: AreaTag, t: System)
    requires Sound(area, t) && Agreed(t.nodes) && Unequivocal(t.authored)
    ensures SameRecords(t.nodes)
  {
    forall m, n, o: NodeID, k: nat | 0 <= m < |t.nodes| && 0 <= n < |t.nodes| && 1 <= k <= Get(t.nodes[m].vector, o)
      ensures k in Slots(t.nodes[m], o) && k in Slots(t.nodes[n], o)
              && Slots(t.nodes[m], o)[k] == Slots(t.nodes[n], o)[k]
    {
      assert SameVector(t.nodes[m].vector, t.nodes[n].vector);
      hide Sound;
      VectorsDescribeTheSameRecords(area, t, m, n, o, k);
    }
  }
}
