/** Why gossip gets there in spite of losses: one area over all nodes, message by message and queue by queue. A
    message on the air may be heard late, again, or never. */
module Liveness {
  import opened Bytes
  import opened Bundle
  import opened Store
  import opened GossipWire
  import opened AntiEntropy
  import opened Convergence
  import opened Agreement
  import opened Engine

  datatype Message =
    | DigestSent(from: NodeID, entry: AreaState)
    | VectorWanted(from: NodeID, to: NodeID)
    | VectorShown(from: NodeID, to: NodeID, vector: Vector)
    | RangesWanted(from: NodeID, to: NodeID, ranges: seq<Range>)
    | BundleSent(recs: seq<Record>)

  // What does not change: who there is, whom they trust, and what one message may carry.
  datatype World = World(area: AreaTag, hash: Vector -> AreaTag, ids: seq<NodeID>, trusts: seq<Trust>, lim: Limits)

  datatype Mesh = Mesh(nodes: seq<AreaLog>, queues: seq<seq<PendingAsk>>, air: set<Message>)

  // `reply` says what becomes of what is sent; `due` is when an ask queued here fires; `missing` is the delta
  // found when a vector is heard.
  datatype Act =
    | Announce(n: nat)
    | Fire(n: nat, now: int, replies: nat -> Reply)
    | Hear(n: nat, msg: Message, due: int, missing: seq<Range>, reply: Reply)
    | Write(n: nat, recs: seq<Record>, reply: Reply)

  predicate Addressed(id: NodeID, msg: Message) {
    match msg
    case DigestSent(from, _) => from != id
    case BundleSent(_) => true
    case _ => msg.to == id
  }

  function HashOf(w: World, log: AreaLog): AreaTag -> AreaTag {
    HashIn(map[w.area := log], w.hash)
  }

  // ---- one act ---------------------------------------------------------------------------------------------

  // What a node puts on the air on hearing a message.
  ghost function Answer(w: World, id: NodeID, log: AreaLog, msg: Message, missing: seq<Range>): Option<Message> {
    match msg
    case VectorWanted(from, _) => Some(VectorShown(id, from, log.vector))
    case VectorShown(from, _, _) =>
      var wanted := Wanted(missing, w.lim.maxRanges);
      if missing == [] || wanted == [] then None
      else Some(RangesWanted(id, from, SortedReq(RangeReq(w.area, wanted)).ranges))
    case RangesWanted(_, _, ranges) =>
      var push := Collected(log, ranges, w.lim.maxPush);
      if push == [] then None else Some(BundleSent(push))
    case _ => None
  }

  ghost function Requests(w: World, id: NodeID, log: AreaLog, queue: seq<PendingAsk>, now: int, replies: nat -> Reply)
    : set<Message>
  {
    var k := FailsAt(queue, now, HashOf(w, log), replies, 0);
    set x | x in Fired(queue[..k], now, HashOf(w, log), replies) && x.AskVector? :: VectorWanted(id, x.peer)
  }

  ghost function Sent(w: World, m: Mesh, a: Act): set<Message>
    requires Can(w, m, a)
  {
    var id, log := w.ids[a.n], m.nodes[a.n];
    match a
    case Announce(_) => {DigestSent(id, Described(w.area, w.hash, log.vector))}
    case Fire(_, now, replies) => Requests(w, id, log, m.queues[a.n], now, replies)
    case Hear(_, msg, _, missing, reply) =>
      var answer := Answer(w, id, log, msg, missing);
      if answer.Some? && reply == Taken then {answer.value} else {}
    case Write(_, recs, reply) => if recs != [] && reply == Taken then {BundleSent(recs)} else {}
  }

  ghost function LogAfter(w: World, t: Trust, log: AreaLog, a: Act): AreaLog {
    match a
    case Write(_, recs, _) => Applied(t, w.area, log, recs)
    case Hear(_, BundleSent(recs), _, _, _) => Applied(t, w.area, log, recs)
    case _ => log
  }

  ghost function QueueAfter(w: World, log: AreaLog, queue: seq<PendingAsk>, a: Act): seq<PendingAsk> {
    match a
    case Fire(_, now, replies) => Remaining(queue, now, HashOf(w, log), replies)
    case Hear(_, DigestSent(from, entry), due, _, _) =>
      if entry.tag == w.area && Causes(w.hash, log.vector, entry) && !Queued(queue, from, w.area)
      then queue + [PendingAsk(from, w.area, due, entry.hash)] else queue
    case _ => queue
  }

  // Only what is on the air is heard, by those it is for, and a vector leads to asking for exactly the difference.
  ghost predicate Can(w: World, m: Mesh, a: Act) {
    && a.n < |m.nodes| == |m.queues| == |w.ids| == |w.trusts|
    && (a.Hear? ==>
          && a.msg in m.air && Addressed(w.ids[a.n], a.msg)
          && (a.msg.VectorShown? ==> IsDelta(a.missing, m.nodes[a.n].vector, a.msg.vector)))
  }

  ghost function After(w: World, m: Mesh, a: Act): Mesh
    requires Can(w, m, a)
  {
    Mesh(m.nodes[a.n := LogAfter(w, w.trusts[a.n], m.nodes[a.n], a)],
         m.queues[a.n := QueueAfter(w, m.nodes[a.n], m.queues[a.n], a)],
         m.air + Sent(w, m, a))
  }

  // ---- what every act keeps -----------------------------------------------------------------------------------

  // A record that any node admits is one that all admit, and U has room for it.
  ghost predicate Expected(w: World, U: set<Slot>, r: Record) {
    (exists t :: t in w.trusts && Admits(t, w.area, r)) ==>
      (r.origin, r.seqNo as nat) in U && forall t :: t in w.trusts ==> Admits(t, w.area, r)
  }

  ghost predicate AllExpected(w: World, U: set<Slot>, recs: seq<Record>) {
    forall r :: r in recs ==> Expected(w, U, r)
  }

  ghost predicate Orderly(w: World, U: set<Slot>, m: Mesh) {
    && |m.nodes| == |m.queues| == |w.ids| && Distinct(w.ids)
    && Federated(w.area, m.nodes, w.trusts, U)
    && forall msg :: msg in m.air ==> Proper(w, U, msg)
  }

  // What a push carries is expected, and marks fit their width.
  ghost predicate Proper(w: World, U: set<Slot>, msg: Message) {
    && (msg.BundleSent? ==> AllExpected(w, U, msg.recs))
    && (msg.VectorShown? ==> forall o: NodeID :: Get(msg.vector, o) < 0x1_0000_0000_0000_0000)
  }

  ghost predicate Shaped(w: World, m: Mesh) {
    |m.nodes| == |m.queues| == |w.ids| == |w.trusts|
  }

  // Nothing held anywhere, nothing queued and nothing said.
  ghost predicate Booted(w: World, m: Mesh) {
    && |m.nodes| == |m.queues| == |w.ids| == |w.trusts| && Distinct(w.ids) && m.air == {}
    && (forall i :: 0 <= i < |m.nodes| ==> m.nodes[i] == AreaLog(map[], map[]) && m.queues[i] == [])
  }

  // Either no log is different or there are fewer empty slots.
  ghost predicate Gains(U: set<Slot>, before: Mesh, after: Mesh) {
    after.nodes == before.nodes || Gap(after.nodes, U) < Gap(before.nodes, U)
  }

  lemma GainsNothing(U: set<Slot>, m: Mesh)
    ensures Gains(U, m, m)
  {
  }

  lemma GainsChain(U: set<Slot>, a: Mesh, b: Mesh, c: Mesh)
    requires Gains(U, a, b) && Gains(U, b, c)
    ensures Gains(U, a, c)
  {
  }

  // Applying what is expected either changes nothing or fills an empty slot.
  lemma ApplyFillsOrRests(w: World, U: set<Slot>, t: Trust, log: AreaLog, recs: seq<Record>)
    requires t in w.trusts && Exact(log) && Filled(log) <= U && AllExpected(w, U, recs)
    requires forall u :: u in w.trusts ==> Authentic(u, w.area, log)
    ensures var after := Applied(t, w.area, log, recs);
            && Exact(after) && Filled(after) <= U
            && (forall u :: u in w.trusts ==> Authentic(u, w.area, after))
            && (after == log || |U - Filled(after)| < |U - Filled(log)|)
  {
    var after := Applied(t, w.area, log, recs);
    ApplyKeepsTheLog(t, w.area, log, recs);
    forall o: NodeID, k: nat | k in Slots(after, o) && k !in Slots(log, o)
      ensures var r := Slots(after, o)[k]; r in recs && Fills(t, w.area, r, o, k) && Expected(w, U, r)
    {
      SlotFrom(t, w.area, log, recs, o, k);
    }
    hide Applied, Admits;
    StaysWithin(w, U, t, log, after);
    if i :| 0 <= i < |recs| && Admits(t, w.area, recs[i]) && recs[i].seqNo !in Slots(log, recs[i].origin) {
      var r := recs[i];
      GainedSlot(t, w.area, log, recs, r);
      FilledMeansSlot(log, r.origin, r.seqNo);
      FilledMeansSlot(after, r.origin, r.seqNo);
      SmallerRemainder(U, Filled(log), Filled(after), (r.origin, r.seqNo as nat));
    } else {
      AllHeldMeansNothingNew(t, w.area, log, recs);
      RestsWhenNothingNew(t, w.area, log, recs);
    }
  }

  lemma RestsWhenNothingNew(t: Trust, area: AreaTag, log: AreaLog, recs: seq<Record>)
    requires NewCount(t, area, log, recs) == 0
    ensures Applied(t, area, log, recs) == log
  {
    NothingNew(t, area, log, recs);
  }

  lemma SlotFrom(t: Trust, area: AreaTag, log: AreaLog, recs: seq<Record>, o: NodeID, k: nat)
    requires Exact(log) && k in Slots(Applied(t, area, log, recs), o) && k !in Slots(log, o)
    ensures var r := Slots(Applied(t, area, log, recs), o)[k]; r in recs && Fills(t, area, r, o, k)
  {
    assert IsHighWater(Slots(log, o), Get(log.vector, o));
    ApplyAtOrigin(t, area, log, recs, o);
    FiledFromSomewhere(t, area, log, recs, o, k);
  }

  lemma StaysWithin(w: World, U: set<Slot>, t: Trust, log: AreaLog, after: AreaLog)
    requires t in w.trusts && Filled(log) <= U && Extends(log, after)
    requires forall u :: u in w.trusts ==> Authentic(u, w.area, log)
    requires forall o: NodeID, k: nat :: k in Slots(after, o) && k !in Slots(log, o) ==>
               var r := Slots(after, o)[k]; Fills(t, w.area, r, o, k) && Expected(w, U, r)
    ensures Filled(log) <= Filled(after) <= U
    ensures forall u :: u in w.trusts ==> Authentic(u, w.area, after)
  {
    hide Admits;
    forall o: NodeID, k: nat
      ensures (o, k) in Filled(after) <==> k in Slots(after, o)
      ensures (o, k) in Filled(log) <==> k in Slots(log, o)
    {
    }
    forall u | u in w.trusts
      ensures Authentic(u, w.area, after)
    {
      assert Authentic(u, w.area, log);
    }
  }

  lemma PushIsExpected(w: World, U: set<Slot>, m: Mesh, n: nat, ranges: seq<Range>, room: nat)
    requires Orderly(w, U, m) && n < |m.nodes|
    ensures AllExpected(w, U, Collected(m.nodes[n], ranges, room))
  {
    var log := m.nodes[n];
    forall r | r in Collected(log, ranges, room)
      ensures Expected(w, U, r)
    {
      CollectedIsHeld(w.trusts[n], w.area, log, ranges, room, r);
      FilledMeansSlot(log, r.origin, r.seqNo);
      assert Filled(log) <= U;
      forall t | t in w.trusts
        ensures Admits(t, w.area, r)
      {
        var i :| 0 <= i < |w.trusts| && w.trusts[i] == t;
        assert Authentic(w.trusts[i], w.area, log);
        SlotIsAuthentic(t, w.area, log, r.origin, r.seqNo);
      }
    }
  }

  lemma SentIsProper(w: World, U: set<Slot>, m: Mesh, a: Act)
    requires Orderly(w, U, m) && Can(w, m, a) && (a.Write? ==> AllExpected(w, U, a.recs))
    ensures forall msg :: msg in Sent(w, m, a) ==> Proper(w, U, msg)
  {
    if a.Hear? && a.msg.RangesWanted? {
      PushIsExpected(w, U, m, a.n, a.msg.ranges, w.lim.maxPush);
    }
    forall o: NodeID
      ensures Get(m.nodes[a.n].vector, o) < 0x1_0000_0000_0000_0000
    {
      MarksAreUint64(w.trusts[a.n], w.area, m.nodes[a.n], o);
    }
    hide AllExpected, Orderly, Collected;
  }

  lemma FederatedAfter(w: World, U: set<Slot>, m: Mesh, n: nat, after: AreaLog)
    requires Orderly(w, U, m) && n < |m.nodes| && Exact(after) && Filled(after) <= U
    requires forall u :: u in w.trusts ==> Authentic(u, w.area, after)
    ensures Federated(w.area, m.nodes[n := after], w.trusts, U)
  {
    hide Exact, Filled, Authentic;
    assert forall i :: 0 <= i < |w.trusts| ==> w.trusts[i] in w.trusts;
  }

  lemma LogFillsOrRests(w: World, U: set<Slot>, m: Mesh, a: Act)
    requires Orderly(w, U, m) && Can(w, m, a) && (a.Write? ==> AllExpected(w, U, a.recs))
    ensures var log, after := m.nodes[a.n], LogAfter(w, w.trusts[a.n], m.nodes[a.n], a);
            && Exact(after) && Filled(after) <= U
            && (forall u :: u in w.trusts ==> Authentic(u, w.area, after))
            && (after == log || |U - Filled(after)| < |U - Filled(log)|)
  {
    hide AllExpected, Applied, Filled, Exact, Authentic;
    var log := m.nodes[a.n];
    forall u | u in w.trusts
      ensures Authentic(u, w.area, log)
    {
      var i :| 0 <= i < |w.trusts| && w.trusts[i] == u;
    }
    if a.Write? {
      ApplyFillsOrRests(w, U, w.trusts[a.n], log, a.recs);
    } else if a.Hear? && a.msg.BundleSent? {
      ApplyFillsOrRests(w, U, w.trusts[a.n], log, a.msg.recs);
    }
  }

  /** Every act keeps the mesh in order, and either changes no log or fills an empty slot. */
  lemma ActFillsOrRests(w: World, U: set<Slot>, m: Mesh, a: Act)
    requires Orderly(w, U, m) && Can(w, m, a) && (a.Write? ==> AllExpected(w, U, a.recs))
    ensures Orderly(w, U, After(w, m, a))
    ensures Gains(U, m, After(w, m, a))
  {
    var log, after := m.nodes[a.n], LogAfter(w, w.trusts[a.n], m.nodes[a.n], a);
    SentIsProper(w, U, m, a);
    LogFillsOrRests(w, U, m, a);
    FederatedAfter(w, U, m, a.n, after);
    hide AllExpected, Proper, Sent, Exact, Authentic, Filled, Federated, Orderly, Gains;
    hide LogAfter, QueueAfter;
    OrderlyNext(w, U, m, After(w, m, a), Sent(w, m, a));
    GainsAt(U, m, After(w, m, a), a.n, after);
  }

  lemma OrderlyNext(w: World, U: set<Slot>, m: Mesh, next: Mesh, sent: set<Message>)
    requires Orderly(w, U, m) && Federated(w.area, next.nodes, w.trusts, U)
    requires |next.queues| == |m.queues| && |next.nodes| == |m.nodes| && next.air == m.air + sent
    requires forall msg :: msg in sent ==> Proper(w, U, msg)
    ensures Orderly(w, U, next)
  {
    hide Proper, Federated;
  }

  lemma GainsAt(U: set<Slot>, m: Mesh, next: Mesh, n: nat, after: AreaLog)
    requires n < |m.nodes| && next.nodes == m.nodes[n := after]
    requires after == m.nodes[n] || |U - Filled(after)| < |U - Filled(m.nodes[n])|
    ensures Gains(U, m, next)
  {
    hide Filled, Gap;
    if after != m.nodes[n] {
      GapAfterUpdate(m.nodes, n, after, U);
    }
  }

  /** A booted mesh is in order, whatever there is room for. */
  lemma BootedIsOrderly(w: World, U: set<Slot>, m: Mesh)
    requires Booted(w, m)
    ensures Orderly(w, U, m)
  {
    forall n | 0 <= n < |m.nodes|
      ensures Exact(m.nodes[n]) && Filled(m.nodes[n]) <= U
    {
      assert m.nodes[n] == AreaLog(map[], map[]);
    }
  }

  // ---- runs ------------------------------------------------------------------------------------------------------

  ghost predicate Follows(w: World, U: set<Slot>, states: seq<Mesh>, acts: seq<Act>, i: nat)
    requires i < |acts| < |states|
  {
    && Can(w, states[i], acts[i]) && (acts[i].Write? ==> AllExpected(w, U, acts[i].recs))
    && states[i + 1] == After(w, states[i], acts[i])
  }

  // Any acts in any order, as long as what is written has room in U.
  ghost predicate Run(w: World, U: set<Slot>, states: seq<Mesh>, acts: seq<Act>) {
    && |states| == |acts| + 1 && Orderly(w, U, states[0])
    && forall i: nat :: i < |acts| ==> Follows(w, U, states, acts, i)
  }

  lemma {:induction false} RunIsOrderly(w: World, U: set<Slot>, states: seq<Mesh>, acts: seq<Act>, i: nat)
    requires Run(w, U, states, acts) && i <= |acts|
    ensures Orderly(w, U, states[i])
  {
    if i > 0 {
      RunIsOrderly(w, U, states, acts, i - 1);
      assert Follows(w, U, states, acts, i - 1);
      hide Orderly, Can, After, AllExpected;
      ActFillsOrRests(w, U, states[i - 1], acts[i - 1]);
    }
  }

  lemma StepFillsOrRests(w: World, U: set<Slot>, states: seq<Mesh>, acts: seq<Act>, i: nat)
    requires Run(w, U, states, acts) && i < |acts|
    ensures Follows(w, U, states, acts, i)
    ensures Gains(U, states[i], states[i + 1])
  {
    RunIsOrderly(w, U, states, acts, i);
    assert Follows(w, U, states, acts, i);
    hide Run, Orderly, Can, After, AllExpected, Gains;
    ActFillsOrRests(w, U, states[i], acts[i]);
  }

  // From i to j either no log changes or the gap narrows.
  lemma {:induction false} GapNeverWidens(w: World, U: set<Slot>, states: seq<Mesh>, acts: seq<Act>, i: nat, j: nat)
    requires |states| == |acts| + 1 && Run(w, U, states, acts) && i <= j <= |acts|
    ensures Gains(U, states[i], states[j])
    decreases j
  {
    hide *;
    if i < j {
      GapNeverWidens(w, U, states, acts, i, j - 1);
      GainsOneMore(w, U, states, acts, i, j - 1);
    } else {
      GainsNothing(U, states[i]);
    }
  }

  lemma GainsOneMore(w: World, U: set<Slot>, states: seq<Mesh>, acts: seq<Act>, i: nat, k: nat)
    requires Run(w, U, states, acts) && i <= k < |acts| && Gains(U, states[i], states[k])
    ensures Gains(U, states[i], states[k + 1])
  {
    StepFillsOrRests(w, U, states, acts, k);
    GainsChain(U, states[i], states[k], states[k + 1]);
  }

  ghost predicate Still(states: seq<Mesh>, i: nat, j: nat) {
    i <= j < |states| && forall k: nat :: i <= k <= j ==> states[k].nodes == states[i].nodes
  }

  ghost predicate HoldsAt(states: seq<Mesh>, k: nat, n: nat, log: AreaLog) {
    k < |states| && n < |states[k].nodes| && states[k].nodes[n] == log
  }

  lemma NoGainMeansStill(w: World, U: set<Slot>, states: seq<Mesh>, acts: seq<Act>, i: nat, j: nat)
    requires Run(w, U, states, acts) && i <= j <= |acts| && Gap(states[j].nodes, U) >= Gap(states[i].nodes, U)
    ensures Still(states, i, j)
  {
    assert |states| == |acts| + 1;
    forall k: nat | i <= k <= j
      ensures states[k].nodes == states[i].nodes
    {
      GapNeverWidens(w, U, states, acts, i, k);
      GapNeverWidens(w, U, states, acts, k, j);
    }
  }

  // ---- a round without losses -----------------------------------------------------------------------------------

  ghost predicate Hears(a: Act, n: nat, msg: Message) {
    a.Hear? && a.n == n && a.msg == msg && a.reply == Taken
  }

  ghost predicate SentAt(w: World, U: set<Slot>, states: seq<Mesh>, acts: seq<Act>, x: nat, msg: Message) {
    x < |acts| < |states| && Follows(w, U, states, acts, x) && msg in Sent(w, states[x], acts[x])
  }

  ghost predicate SentBetween(w: World, U: set<Slot>, states: seq<Mesh>, acts: seq<Act>, i: nat, j: nat, msg: Message) {
    exists x: nat :: i <= x < j && SentAt(w, U, states, acts, x, msg)
  }

  ghost predicate HeardBetween(acts: seq<Act>, i: nat, j: nat, n: nat, msg: Message) {
    exists x: nat :: i <= x < j && x < |acts| && Hears(acts[x], n, msg)
  }

  // Whatever is sent from i on and before j is heard before k by all it is for, and what they answer goes out.
  ghost predicate Carried(w: World, U: set<Slot>, states: seq<Mesh>, acts: seq<Act>, i: nat, j: nat, k: nat) {
    forall msg, n: nat ::
      n < |w.ids| && Addressed(w.ids[n], msg) && SentBetween(w, U, states, acts, i, j, msg) ==>
        HeardBetween(acts, j, k, n, msg)
  }

  // Every ask is due, and every request goes out.
  ghost predicate Empties(a: Act, queue: seq<PendingAsk>) {
    a.Fire? && forall i :: 0 <= i < |queue| ==> queue[i].at <= a.now && a.replies(i) == Taken
  }

  // The queue of node n is emptied.
  ghost predicate Emptied(states: seq<Mesh>, acts: seq<Act>, i: nat, j: nat, n: nat)
    requires i <= j <= |acts| < |states|
  {
    exists x: nat :: i <= x < j && acts[x].n == n && n < |states[x].queues| && Empties(acts[x], states[x].queues[n])
  }

  // The vector of node n is announced, by itself or by another that holds the same: a node that has heard its own
  // digest from another stays silent.
  ghost predicate Announced(states: seq<Mesh>, acts: seq<Act>, i: nat, j: nat, n: nat)
    requires i <= j <= |acts| < |states|
  {
    exists x: nat ::
      i <= x < j && acts[x].Announce? && n < |states[x].nodes| && acts[x].n < |states[x].nodes|
      && states[x].nodes[acts[x].n].vector == states[x].nodes[n].vector
  }

  // Where the stages of a round begin.
  datatype Round = Round(start: nat, digests: nat, asks: nat, requests: nat, vectors: nat, ranges: nat, pushes: nat,
    end: nat)

  ghost predicate InOrder(r: Round) {
    r.start <= r.digests <= r.asks <= r.requests <= r.vectors <= r.ranges <= r.pushes <= r.end
  }

  // Old asks fire and digests go out; they are heard; asks fire; requests, vectors, ranges and pushes are heard in
  // turn. Anything else may happen in between, old messages coming back included.
  ghost predicate Lossless(w: World, U: set<Slot>, states: seq<Mesh>, acts: seq<Act>, r: Round)
    requires Run(w, U, states, acts)
  {
    && InOrder(r) && r.end <= |acts|
    && (forall n: nat :: n < |w.ids| ==>
          && Emptied(states, acts, r.start, r.digests, n) && Announced(states, acts, r.start, r.digests, n)
          && Emptied(states, acts, r.asks, r.requests, n))
    && Carried(w, U, states, acts, r.start, r.digests, r.asks)
    && Carried(w, U, states, acts, r.digests, r.requests, r.vectors)
    && Carried(w, U, states, acts, r.requests, r.vectors, r.ranges)
    && Carried(w, U, states, acts, r.vectors, r.ranges, r.pushes)
    && Carried(w, U, states, acts, r.ranges, r.pushes, r.end)
  }

  // ---- the queue of one node while no log changes -------------------------------------------------------------

  // No ask here would be dropped as answered.
  ghost predicate Live(w: World, log: AreaLog, queue: seq<PendingAsk>) {
    forall ask :: ask in queue ==> ask.area == w.area && ask.wantHash != w.hash(log.vector)
  }

  lemma {:induction false} RemainingWasQueued(queue: seq<PendingAsk>, now: int, mine: AreaTag -> AreaTag,
                                              reply: nat -> Reply)
    ensures forall ask :: ask in Remaining(queue, now, mine, reply) ==> ask in queue
  {
    var n := FailsAt(queue, now, mine, reply, 0);
    assert queue[..|queue|] == queue;
    KeptWasQueued(queue[..n], now, mine, reply);
    assert forall ask :: ask in queue[..n] ==> ask in queue;
    assert forall i: nat :: i <= |queue| ==> forall ask :: ask in queue[i..] ==> ask in queue;
  }

  lemma StaysLive(w: World, log: AreaLog, queue: seq<PendingAsk>, a: Act)
    requires Live(w, log, queue)
    ensures Live(w, log, QueueAfter(w, log, queue, a))
  {
    if a.Fire? {
      RemainingWasQueued(queue, a.now, HashOf(w, log), a.replies);
    }
  }

  lemma {:induction false} NothingStays(queue: seq<PendingAsk>, now: int, mine: AreaTag -> AreaTag, reply: nat -> Reply)
    requires forall i :: 0 <= i < |queue| ==> queue[i].at <= now && reply(i) == Taken
    ensures Kept(queue, now, mine, reply) == []
  {
    if queue != [] {
      NothingStays(queue[..|queue| - 1], now, mine, reply);
    }
  }

  lemma EmptiedQueueIsEmpty(w: World, log: AreaLog, queue: seq<PendingAsk>, a: Act)
    requires Empties(a, queue)
    ensures QueueAfter(w, log, queue, a) == []
  {
    FirstFailure(queue, a.now, HashOf(w, log), a.replies, 0);
    NothingStays(queue, a.now, HashOf(w, log), a.replies);
  }

  // An ask of a live queue is still there after any act, or its request was sent.
  lemma StillAskedOrSent(w: World, m: Mesh, a: Act, n: nat, peer: NodeID)
    requires Can(w, m, a) && n < |m.nodes| && Live(w, m.nodes[n], m.queues[n]) && Queued(m.queues[n], peer, w.area)
    ensures Queued(After(w, m, a).queues[n], peer, w.area) || VectorWanted(w.ids[n], peer) in Sent(w, m, a)
  {
    var queue := m.queues[n];
    var i :| 0 <= i < |queue| && queue[i].peer == peer && queue[i].area == w.area;
    if a.n == n {
      if a.Fire? {
        NoAskIsLost(queue, a.now, HashOf(w, m.nodes[n]), a.replies, i);
        HashInIs(map[w.area := m.nodes[n]], w.hash, w.area);
      } else {
        assert QueueAfter(w, m.nodes[n], queue, a)[i] == queue[i];
      }
    }
  }

  lemma QueuesAfter(w: World, m: Mesh, a: Act, n: nat)
    requires Can(w, m, a) && n < |m.nodes|
    ensures After(w, m, a).queues[n] ==
            if a.n == n then QueueAfter(w, m.nodes[n], m.queues[n], a) else m.queues[n]
  {
  }

  lemma StepShape(w: World, U: set<Slot>, states: seq<Mesh>, acts: seq<Act>, k: nat)
    requires Run(w, U, states, acts) && k < |acts|
    ensures Shaped(w, states[k]) && Shaped(w, states[k + 1]) && Follows(w, U, states, acts, k)
    ensures forall n: nat :: n < |w.ids| ==>
              states[k + 1].queues[n] ==
              if acts[k].n == n then QueueAfter(w, states[k].nodes[n], states[k].queues[n], acts[k])
                else states[k].queues[n]
  {
    RunIsOrderly(w, U, states, acts, k);
    RunIsOrderly(w, U, states, acts, k + 1);
    assert Follows(w, U, states, acts, k);
    forall n: nat | n < |w.ids|
      ensures states[k + 1].queues[n] ==
              if acts[k].n == n then QueueAfter(w, states[k].nodes[n], states[k].queues[n], acts[k])
                else states[k].queues[n]
    {
      QueuesAfter(w, states[k], acts[k], n);
    }
  }

  // While no log changes a live queue stays live.
  lemma {:induction false} LiveTo(w: World, U: set<Slot>, states: seq<Mesh>, acts: seq<Act>, i: nat, j: nat, n: nat,
                                  log: AreaLog)
    requires Run(w, U, states, acts) && i <= j <= |acts| && n < |w.ids| && Shaped(w, states[i]) && Shaped(w, states[j])
    requires forall k: nat :: i <= k <= j ==> HoldsAt(states, k, n, log)
    requires Live(w, log, states[i].queues[n])
    ensures Live(w, log, states[j].queues[n])
    decreases j
  {
    if i < j {
      StepShape(w, U, states, acts, j - 1);
      assert HoldsAt(states, j - 1, n, log);
      hide Run, Follows, Live, QueueAfter;
      LiveTo(w, U, states, acts, i, j - 1, n, log);
      StaysLive(w, log, states[j - 1].queues[n], acts[j - 1]);
    }
  }

  // An ask of a live queue is still there, or its request was sent on the way.
  lemma {:induction false} AskedOrSentTo(w: World, U: set<Slot>, states: seq<Mesh>, acts: seq<Act>, i: nat, j: nat,
                                         n: nat,
                                         log: AreaLog, peer: NodeID)
    requires Run(w, U, states, acts) && i <= j <= |acts| && n < |w.ids| && Shaped(w, states[i]) && Shaped(w, states[j])
    requires forall k: nat :: i <= k <= j ==> HoldsAt(states, k, n, log)
    requires Live(w, log, states[i].queues[n]) && Queued(states[i].queues[n], peer, w.area)
    ensures Queued(states[j].queues[n], peer, w.area)
            || SentBetween(w, U, states, acts, i, j, VectorWanted(w.ids[n], peer))
    decreases j
  {
    if i < j {
      var k := j - 1;
      StepShape(w, U, states, acts, k);
      assert HoldsAt(states, k, n, log);
      LiveTo(w, U, states, acts, i, k, n, log);
      hide Run, Live, QueueAfter, Queued, Sent;
      AskedOrSentTo(w, U, states, acts, i, k, n, log, peer);
      if Queued(states[k].queues[n], peer, w.area) {
        StillAskedOrSent(w, states[k], acts[k], n, peer);
        assert VectorWanted(w.ids[n], peer) in Sent(w, states[k], acts[k]) ==>
            SentAt(w, U, states, acts, k, VectorWanted(w.ids[n], peer));
      }
    }
  }

  // ---- what a lossless round brings about while no log changes ------------------------------------------------

  // What is heard is answered, and the answer goes out.
  lemma HeardIsAnswered(w: World, U: set<Slot>, states: seq<Mesh>, acts: seq<Act>, y: nat, n: nat, msg: Message)
    requires Run(w, U, states, acts) && y < |acts| && Hears(acts[y], n, msg)
    ensures Shaped(w, states[y]) && Shaped(w, states[y + 1]) && n < |w.ids|
    ensures var answer := Answer(w, w.ids[n], states[y].nodes[n], msg, acts[y].missing);
            answer.Some? ==> SentAt(w, U, states, acts, y, answer.value)
    ensures msg.VectorShown? ==> IsDelta(acts[y].missing, states[y].nodes[n].vector, msg.vector)
    ensures msg.BundleSent? ==>
              states[y + 1].nodes[n] == Applied(w.trusts[n], w.area, states[y].nodes[n], msg.recs)
  {
    StepShape(w, U, states, acts, y);
    hide Run, Answer, IsDelta, Applied, QueueAfter;
  }

  lemma DigestIsQueued(w: World, log: AreaLog, queue: seq<PendingAsk>, a: Act, from: NodeID, theirs: Vector)
    requires Asks(w.hash, log.vector, theirs)
    requires a.Hear? && a.msg == DigestSent(from, Described(w.area, w.hash, theirs))
    ensures Queued(QueueAfter(w, log, queue, a), from, w.area)
  {
    var after := QueueAfter(w, log, queue, a);
    if !Queued(queue, from, w.area) {
      assert after[|after| - 1].peer == from && after[|after| - 1].area == w.area;
    }
  }

  ghost predicate Calm(w: World, U: set<Slot>, states: seq<Mesh>, acts: seq<Act>, r: Round) {
    |states| == |acts| + 1 && Run(w, U, states, acts) && Lossless(w, U, states, acts, r)
      && Still(states, r.start, r.end)
  }

  lemma CalmNodes(w: World, U: set<Slot>, states: seq<Mesh>, acts: seq<Act>, r: Round, k: nat)
    requires Calm(w, U, states, acts, r) && r.start <= k <= r.end
    ensures states[k].nodes == states[r.start].nodes && Orderly(w, U, states[k]) && Shaped(w, states[k])
    ensures forall n: nat :: n < |w.ids| ==> HoldsAt(states, k, n, states[r.start].nodes[n])
  {
    RunIsOrderly(w, U, states, acts, k);
  }

  // The queue of a node is live from the moment it was emptied.
  lemma LiveOnceEmptied(w: World, U: set<Slot>, states: seq<Mesh>, acts: seq<Act>, r: Round, m: nat, k: nat)
    requires Calm(w, U, states, acts, r) && m < |w.ids| && r.digests <= k <= r.end
    ensures Shaped(w, states[k]) && Shaped(w, states[r.start])
    ensures Live(w, states[r.start].nodes[m], states[k].queues[m])
  {
    CalmNodes(w, U, states, acts, r, k);
    CalmNodes(w, U, states, acts, r, r.start);
    var log := states[r.start].nodes[m];
    var d := WhenEmptied(w, U, states, acts, r, m);
    forall x: nat | d <= x <= k
      ensures HoldsAt(states, x, m, log)
    {
      CalmNodes(w, U, states, acts, r, x);
    }
    hide Lossless, Still, Orderly;
    LiveTo(w, U, states, acts, d, k, m, log);
  }

  lemma WhenEmptied(w: World, U: set<Slot>, states: seq<Mesh>, acts: seq<Act>, r: Round, m: nat) returns (d: nat)
    requires Calm(w, U, states, acts, r) && Run(w, U, states, acts) && m < |w.ids|
    ensures r.start <= d <= r.digests && Shaped(w, states[d]) && states[d].queues[m] == []
  {
    assert Emptied(states, acts, r.start, r.digests, m);
    hide Calm, Empties;
    var x: nat :| r.start <= x < r.digests && acts[x].n == m && m < |states[x].queues|
      && Empties(acts[x], states[x].queues[m]);
    FiringEmpties(w, U, states, acts, x, m);
    d := x + 1;
  }

  lemma FiringEmpties(w: World, U: set<Slot>, states: seq<Mesh>, acts: seq<Act>, x: nat, m: nat)
    requires |states| == |acts| + 1 && Run(w, U, states, acts) && x < |acts| && m < |w.ids|
    requires acts[x].n == m && m < |states[x].queues| && Empties(acts[x], states[x].queues[m])
    ensures Shaped(w, states[x + 1]) && states[x + 1].queues[m] == []
  {
    StepShape(w, U, states, acts, x);
    hide Run, Follows, QueueAfter, Empties;
    EmptiedQueueIsEmpty(w, states[x].nodes[m], states[x].queues[m], acts[x]);
  }

  // Somebody with n's vector announces it.
  lemma SomebodyAnnounces(w: World, U: set<Slot>, states: seq<Mesh>, acts: seq<Act>, r: Round, n: nat) returns (p: nat)
    requires Calm(w, U, states, acts, r) && n < |w.ids|
    ensures Shaped(w, states[r.start]) && p < |w.ids|
    ensures states[r.start].nodes[p].vector == states[r.start].nodes[n].vector
    ensures var digest := DigestSent(w.ids[p], Described(w.area, w.hash, states[r.start].nodes[n].vector));
            SentBetween(w, U, states, acts, r.start, r.digests, digest)
  {
    assert Announced(states, acts, r.start, r.digests, n);
    var x: nat :| r.start <= x < r.digests && acts[x].Announce? && n < |states[x].nodes|
      && acts[x].n < |states[x].nodes|
                  && states[x].nodes[acts[x].n].vector == states[x].nodes[n].vector;
    p := acts[x].n;
    CalmNodes(w, U, states, acts, r, r.start);
    CalmNodes(w, U, states, acts, r, x);
    StepShape(w, U, states, acts, x);
    hide Described, Lossless, Still, Run;
    assert SentAt(w, U, states, acts, x, DigestSent(w.ids[p], Described(w.area, w.hash, states[x].nodes[p].vector)));
  }

  // Whoever has cause to ask queues it on hearing that.
  lemma AskIsQueued(w: World, U: set<Slot>, states: seq<Mesh>, acts: seq<Act>, r: Round, m: nat, p: nat, theirs: Vector)
    returns (i: nat)
    requires Calm(w, U, states, acts, r) && m < |w.ids| && p < |w.ids| && m != p && Shaped(w, states[r.start])
    requires Asks(w.hash, states[r.start].nodes[m].vector, theirs)
    requires SentBetween(w, U, states, acts, r.start, r.digests,
             DigestSent(w.ids[p], Described(w.area, w.hash, theirs)))
    ensures r.digests <= i <= r.asks && Shaped(w, states[i]) && Queued(states[i].queues[m], w.ids[p], w.area)
  {
    var digest := DigestSent(w.ids[p], Described(w.area, w.hash, theirs));
    CalmNodes(w, U, states, acts, r, r.start);
    assert w.ids[p] != w.ids[m];
    assert HeardBetween(acts, r.digests, r.asks, m, digest);
    var h: nat :| r.digests <= h < r.asks && h < |acts| && Hears(acts[h], m, digest);
    CalmNodes(w, U, states, acts, r, h);
    hide Lossless, Still, Orderly, Described, Asks, SentBetween, HeardBetween;
    StepShape(w, U, states, acts, h);
    hide QueueAfter, Queued, Run, Follows;
    DigestIsQueued(w, states[h].nodes[m], states[h].queues[m], acts[h], w.ids[p], theirs);
    i := h + 1;
  }

  // And asks for the vector when its queue next empties.
  lemma RequestGoesOut(w: World, U: set<Slot>, states: seq<Mesh>, acts: seq<Act>, r: Round, m: nat, p: nat,
                       theirs: Vector)
    requires Calm(w, U, states, acts, r) && m < |w.ids| && p < |w.ids| && m != p && Shaped(w, states[r.start])
    requires Asks(w.hash, states[r.start].nodes[m].vector, theirs)
    requires SentBetween(w, U, states, acts, r.start, r.digests,
             DigestSent(w.ids[p], Described(w.area, w.hash, theirs)))
    ensures SentBetween(w, U, states, acts, r.digests, r.requests, VectorWanted(w.ids[m], w.ids[p]))
  {
    var i := AskIsQueued(w, U, states, acts, r, m, p, theirs);
    assert Emptied(states, acts, r.asks, r.requests, m);
    var f: nat :| r.asks <= f < r.requests && acts[f].n == m && m < |states[f].queues|
      && Empties(acts[f], states[f].queues[m]);
    hide Calm, Shaped, SentBetween, Empties, Queued;
    FiresBy(w, U, states, acts, r, m, i, f, w.ids[p]);
  }

  lemma FiresBy(w: World, U: set<Slot>, states: seq<Mesh>, acts: seq<Act>, r: Round, m: nat, i: nat, f: nat,
                peer: NodeID)
    requires Calm(w, U, states, acts, r) && m < |w.ids| && r.digests <= i <= f < r.requests
    requires Shaped(w, states[i]) && Queued(states[i].queues[m], peer, w.area)
    requires acts[f].n == m && m < |states[f].queues| && Empties(acts[f], states[f].queues[m])
    ensures SentBetween(w, U, states, acts, r.digests, r.requests, VectorWanted(w.ids[m], peer))
  {
    var msg := VectorWanted(w.ids[m], peer);
    var log := states[r.start].nodes[m];
    LiveOnceEmptied(w, U, states, acts, r, m, i);
    LiveOnceEmptied(w, U, states, acts, r, m, f);
    forall x: nat | i <= x <= f
      ensures HoldsAt(states, x, m, log)
    {
      CalmNodes(w, U, states, acts, r, x);
    }
    AskedOrSentTo(w, U, states, acts, i, f, m, log, peer);
    if Queued(states[f].queues[m], peer, w.area) {
      StepShape(w, U, states, acts, f);
      assert HoldsAt(states, f, m, log);
      EmptiedQueueIsEmpty(w, log, states[f].queues[m], acts[f]);
      hide Empties, QueueAfter, Lossless, Still, Orderly, Live, Sent, Run;
      StillAskedOrSent(w, states[f], acts[f], m, peer);
      assert SentAt(w, U, states, acts, f, msg);
    } else {
      hide Empties, QueueAfter, Lossless, Still, Orderly, Live, SentAt, Run;
    }
  }

  // A message of one stage is heard in the next, and what it is answered with goes out there.
  lemma HeardInTheNext(w: World, U: set<Slot>, states: seq<Mesh>, acts: seq<Act>, r: Round, i: nat, j: nat, k: nat,
                       n: nat, msg: Message) returns (missing: seq<Range>)
    requires Calm(w, U, states, acts, r) && Carried(w, U, states, acts, i, j, k) && r.start <= j && k <= r.end
    requires n < |w.ids| && Addressed(w.ids[n], msg) && SentBetween(w, U, states, acts, i, j, msg)
    ensures Shaped(w, states[r.start])
    ensures var log := states[r.start].nodes[n];
            var answer := Answer(w, w.ids[n], log, msg, missing);
            && (answer.Some? ==> SentBetween(w, U, states, acts, j, k, answer.value))
            && (msg.VectorShown? ==> IsDelta(missing, log.vector, msg.vector))
            && (msg.BundleSent? ==> log == Applied(w.trusts[n], w.area, log, msg.recs))
  {
    assert HeardBetween(acts, j, k, n, msg);
    var y: nat :| j <= y < k && y < |acts| && Hears(acts[y], n, msg);
    missing := acts[y].missing;
    CalmNodes(w, U, states, acts, r, r.start);
    CalmNodes(w, U, states, acts, r, y);
    CalmNodes(w, U, states, acts, r, y + 1);
    hide Lossless, Still, Orderly, Hears, Carried, SentBetween, HeardBetween;
    HeardIsAnswered(w, U, states, acts, y, n, msg);
    hide Run, SentAt, Answer, Applied, IsDelta;
    var answer := Answer(w, w.ids[n], states[y].nodes[n], msg, missing);
    if answer.Some? {
      SentSomewhere(w, U, states, acts, j, k, y, answer.value);
    }
  }

  lemma SentSomewhere(w: World, U: set<Slot>, states: seq<Mesh>, acts: seq<Act>, i: nat, j: nat, x: nat, msg: Message)
    requires i <= x < j && SentAt(w, U, states, acts, x, msg)
    ensures SentBetween(w, U, states, acts, i, j, msg)
  {
  }

  lemma CalmStages(w: World, U: set<Slot>, states: seq<Mesh>, acts: seq<Act>, r: Round)
    requires Calm(w, U, states, acts, r)
    ensures InOrder(r)
    ensures Carried(w, U, states, acts, r.digests, r.requests, r.vectors)
    ensures Carried(w, U, states, acts, r.requests, r.vectors, r.ranges)
    ensures Carried(w, U, states, acts, r.vectors, r.ranges, r.pushes)
    ensures Carried(w, U, states, acts, r.ranges, r.pushes, r.end)
  {
    hide Run, Carried, Still;
  }

  ghost function RangesFor(w: World, missing: seq<Range>): seq<Range> {
    SortedReq(RangeReq(w.area, Wanted(missing, w.lim.maxRanges))).ranges
  }

  // A request that goes out is answered with the vector, and that with the ranges lacked.
  lemma RequestLeadsToRanges(w: World, U: set<Slot>, states: seq<Mesh>, acts: seq<Act>, r: Round, m: nat, p: nat)
    returns (missing: seq<Range>)
    requires Calm(w, U, states, acts, r) && m < |w.ids| && p < |w.ids| && Shaped(w, states[r.start])
    requires SentBetween(w, U, states, acts, r.digests, r.requests, VectorWanted(w.ids[m], w.ids[p]))
    requires Behind(states[r.start].nodes[m].vector, states[r.start].nodes[p].vector) && w.lim.maxRanges >= 1
    ensures missing != [] && IsDelta(missing, states[r.start].nodes[m].vector, states[r.start].nodes[p].vector)
    ensures SentBetween(w, U, states, acts, r.vectors, r.ranges,
                        RangesWanted(w.ids[m], w.ids[p], RangesFor(w, missing)))
  {
    var mine, theirs := states[r.start].nodes[m], states[r.start].nodes[p];
    var you, me := w.ids[p], w.ids[m];
    CalmStages(w, U, states, acts, r);
    hide Calm, Carried, SentBetween, Wanted, Collected, Applied, IsDelta, Behind, InOrder;
    var none := HeardInTheNext(w, U, states, acts, r, r.digests, r.requests, r.vectors, p, VectorWanted(me, you));
    missing := HeardInTheNext(w, U, states, acts, r, r.requests, r.vectors, r.ranges, m,
                              VectorShown(you, me, theirs.vector));
    BehindMeansMissing(missing, mine.vector, theirs.vector);
    WantedIsPartOfTheDelta(missing, w.lim.maxRanges);
  }

  // Those are answered with a push.
  lemma RangesLeadToAPush(w: World, U: set<Slot>, states: seq<Mesh>, acts: seq<Act>, r: Round, m: nat, p: nat,
                          ranges: seq<Range>)
    requires Calm(w, U, states, acts, r) && m < |w.ids| && p < |w.ids| && Shaped(w, states[r.start])
    requires SentBetween(w, U, states, acts, r.vectors, r.ranges, RangesWanted(w.ids[m], w.ids[p], ranges))
    requires Collected(states[r.start].nodes[p], ranges, w.lim.maxPush) != []
    ensures SentBetween(w, U, states, acts, r.ranges, r.pushes,
                        BundleSent(Collected(states[r.start].nodes[p], ranges, w.lim.maxPush)))
  {
    CalmStages(w, U, states, acts, r);
    hide Calm, Carried, SentBetween, Collected;
    var none := HeardInTheNext(w, U, states, acts, r, r.vectors, r.ranges, r.pushes, p,
                               RangesWanted(w.ids[m], w.ids[p], ranges));
  }

  // And that is applied.
  lemma PushIsApplied(w: World, U: set<Slot>, states: seq<Mesh>, acts: seq<Act>, r: Round, m: nat, push: seq<Record>)
    requires Calm(w, U, states, acts, r) && m < |w.ids| && Shaped(w, states[r.start])
    requires SentBetween(w, U, states, acts, r.ranges, r.pushes, BundleSent(push))
    ensures states[r.start].nodes[m] == Applied(w.trusts[m], w.area, states[r.start].nodes[m], push)
  {
    CalmStages(w, U, states, acts, r);
    hide Calm, Carried, SentBetween, Applied;
    var none := HeardInTheNext(w, U, states, acts, r, r.ranges, r.pushes, r.end, m, BundleSent(push));
  }

  lemma PushIsNotEmpty(t: Trust, w: World, mine: AreaLog, theirs: AreaLog, missing: seq<Range>)
    requires Exact(theirs) && Authentic(t, w.area, theirs) && w.lim.maxRanges >= 1 && w.lim.maxPush >= 1
    requires IsDelta(missing, mine.vector, theirs.vector) && missing != []
    ensures Collected(theirs, RangesFor(w, missing), w.lim.maxPush) != []
  {
    hide Exact, Authentic, IsDelta, Collected, Wanted;
    var first := FirstPushed(t, w.area, mine, theirs, missing, w.lim);
  }

  lemma BehindMeansMissing(missing: seq<Range>, mine: Vector, theirs: Vector)
    requires IsDelta(missing, mine, theirs) && Behind(mine, theirs)
    ensures missing != []
  {
  }

  lemma RoundIsNotIdle(t: Trust, area: AreaTag, mine: AreaLog, theirs: AreaLog, missing: seq<Range>, lim: Limits)
    requires Exact(mine) && Exact(theirs) && Authentic(t, area, theirs)
    requires IsDelta(missing, mine.vector, theirs.vector) && missing != [] && lim.maxRanges >= 1 && lim.maxPush >= 1
    ensures Applied(t, area, mine, Collected(theirs, SortedReq(RangeReq(area, Wanted(missing, lim.maxRanges))).ranges,
                                             lim.maxPush)) != mine
  {
    hide Applied, Exact, Authentic, IsDelta, Wanted, Collected;
    var r := RoundAdvances(t, area, mine, theirs, missing, lim);
  }

  lemma CalmMeansQuiet(w: World, U: set<Slot>, states: seq<Mesh>, acts: seq<Act>, r: Round)
    requires Calm(w, U, states, acts, r) && w.lim.maxRanges >= 1 && w.lim.maxPush >= 1
    ensures Quiet(states[r.start].nodes, w.hash)
  {
    var nodes := states[r.start].nodes;
    CalmNodes(w, U, states, acts, r, r.start);
    assert forall m: nat, n: nat :: m < |nodes| && n < |nodes| ==>
      Exact(nodes[m]) && Authentic(w.trusts[m], w.area, nodes[n]);
    hide Calm, Orderly, SentBetween, IsDelta, Exact, Authentic, Applied, Collected, Wanted;
    if x: Exchange :| Productive(nodes, x) && Asks(w.hash, nodes[x.asker].vector, nodes[x.peer].vector) {
      var m, theirs := x.asker, nodes[x.peer].vector;
      ProductiveMeansBehind(nodes, x);
      var p := SomebodyAnnounces(w, U, states, acts, r, x.peer);
      RequestGoesOut(w, U, states, acts, r, m, p, theirs);
      var missing := RequestLeadsToRanges(w, U, states, acts, r, m, p);
      PushIsNotEmpty(w.trusts[p], w, nodes[m], nodes[p], missing);
      RangesLeadToAPush(w, U, states, acts, r, m, p, RangesFor(w, missing));
      PushIsApplied(w, U, states, acts, r, m, Collected(nodes[p], RangesFor(w, missing), w.lim.maxPush));
      RoundIsNotIdle(w.trusts[m], w.area, nodes[m], nodes[p], missing, w.lim);
    }
  }

  lemma ProductiveMeansBehind(nodes: seq<AreaLog>, x: Exchange)
    requires Productive(nodes, x)
    ensures Behind(nodes[x.asker].vector, nodes[x.peer].vector)
  {
    assert x.missing[0] in x.missing;
  }

  // ---- the results -------------------------------------------------------------------------------------------------

  /** A round without losses, whatever else happens in it, narrows the gap, unless the mesh was already quiet. */
  lemma LosslessRoundGains(w: World, U: set<Slot>, states: seq<Mesh>, acts: seq<Act>, r: Round)
    requires |states| == |acts| + 1 && Run(w, U, states, acts) && Lossless(w, U, states, acts, r)
    requires w.lim.maxRanges >= 1 && w.lim.maxPush >= 1
    ensures Quiet(states[r.start].nodes, w.hash) || Gap(states[r.end].nodes, U) < Gap(states[r.start].nodes, U)
  {
    if Gap(states[r.end].nodes, U) >= Gap(states[r.start].nodes, U) {
      NoGainMeansStill(w, U, states, acts, r.start, r.end);
      hide Run, Lossless, Still, Quiet, Gap;
      CalmMeansQuiet(w, U, states, acts, r);
    }
  }

  // Rounds without losses, one after another, with anything in between.
  ghost predicate InTurn(w: World, U: set<Slot>, states: seq<Mesh>, acts: seq<Act>, rounds: seq<Round>)
    requires Run(w, U, states, acts)
  {
    && (forall i :: 0 <= i < |rounds| ==> Lossless(w, U, states, acts, rounds[i]))
    && (forall i, j :: 0 <= i < j < |rounds| ==> rounds[i].end <= rounds[j].start)
  }

  // How many of them begin with somebody having cause to ask.
  ghost function Unquiet(w: World, states: seq<Mesh>, rounds: seq<Round>): nat {
    if rounds == [] then 0
    else
      var last := rounds[|rounds| - 1];
      var before := Unquiet(w, states, rounds[..|rounds| - 1]);
      if last.start < |states| && !Quiet(states[last.start].nodes, w.hash) then before + 1 else before
  }

  /** In any run at all, however many messages are lost, repeated or late, no more rounds without losses begin
      unquiet than there were slots empty somewhere at the start. */
  lemma {:induction false} LosslessRoundsFindQuiet(w: World, U: set<Slot>, states: seq<Mesh>, acts: seq<Act>,
                                                   rounds: seq<Round>)
    requires |states| == |acts| + 1 && Run(w, U, states, acts) && InTurn(w, U, states, acts, rounds)
    requires w.lim.maxRanges >= 1 && w.lim.maxPush >= 1
    ensures var end := if rounds == [] then 0 else rounds[|rounds| - 1].end;
            && end <= |acts|
            && Unquiet(w, states, rounds) + Gap(states[end].nodes, U) <= Gap(states[0].nodes, U)
  {
    if rounds != [] {
      var init, last := rounds[..|rounds| - 1], rounds[|rounds| - 1];
      assert Lossless(w, U, states, acts, last) && InTurn(w, U, states, acts, init);
      LosslessRoundsFindQuiet(w, U, states, acts, init);
      var before := if init == [] then 0 else init[|init| - 1].end;
      GapNeverWidens(w, U, states, acts, before, last.start);
      GapNeverWidens(w, U, states, acts, last.start, last.end);
      LosslessRoundGains(w, U, states, acts, last);
    }
  }

  lemma {:induction false} GapIsAtMost(nodes: seq<AreaLog>, U: set<Slot>)
    ensures Gap(nodes, U) <= |nodes| * |U|
  {
    if nodes != [] {
      Cardinalities(U - Filled(nodes[0]), U);
      GapIsAtMost(nodes[1..], U);
      assert |nodes| * |U| == |U| + (|nodes| - 1) * |U|;
    }
  }

  lemma {:induction false} NotAllUnquiet(w: World, states: seq<Mesh>, rounds: seq<Round>) returns (i: nat)
    requires Unquiet(w, states, rounds) < |rounds|
    ensures i < |rounds| && (rounds[i].start < |states| ==> Quiet(states[rounds[i].start].nodes, w.hash))
  {
    i := |rounds| - 1;
    hide Quiet;
    if rounds[i].start < |states| && !Quiet(states[rounds[i].start].nodes, w.hash) {
      i := NotAllUnquiet(w, states, rounds[..i]);
    }
  }

  /** So a mesh that gets more rounds without losses than it has nodes times slots is quiet when one of them begins,
      and there all vectors agree, unless two different ones hash alike. */
  lemma QuietInTheEnd(w: World, U: set<Slot>, states: seq<Mesh>, acts: seq<Act>, rounds: seq<Round>) returns (i: nat)
    requires |states| == |acts| + 1 && Run(w, U, states, acts) && InTurn(w, U, states, acts, rounds)
    requires w.lim.maxRanges >= 1 && w.lim.maxPush >= 1 && |rounds| > |w.ids| * |U|
    ensures i < |rounds| && rounds[i].start < |states|
    ensures var nodes := states[rounds[i].start].nodes;
            Quiet(nodes, w.hash) && (Agreed(nodes) <==> !Collision(nodes, w.hash))
  {
    LosslessRoundsFindQuiet(w, U, states, acts, rounds);
    GapIsAtMost(states[0].nodes, U);
    i := NotAllUnquiet(w, states, rounds);
    assert Lossless(w, U, states, acts, rounds[i]);
    RunIsOrderly(w, U, states, acts, rounds[i].start);
    hide Run, InTurn, Lossless, Quiet, Agreed, Collision, Federated;
    QuietAgreesUnlessCollided(w.area, states[rounds[i].start].nodes, w.trusts, U, w.hash);
  }
}
