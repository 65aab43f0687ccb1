/** That a round without losses is always possible: any run of a mesh can be continued by one. */
module Rounds {
  import opened Bytes
  import opened Store
  import opened GossipWire
  import AE = AntiEntropy
  import A = Agreement
  import opened Convergence
  import E = Engine
  import opened Liveness

  // A run and how it goes on.
  datatype History = History(states: seq<Mesh>, acts: seq<Act>)

  ghost predicate Lawful(w: World, U: set<Slot>, h: History) {
    |h.states| == |h.acts| + 1 && Run(w, U, h.states, h.acts)
  }

  ghost predicate Continues(h: History, g: History) {
    && |h.states| == |h.acts| + 1 && |g.states| == |g.acts| + 1
    && h.acts <= g.acts && h.states <= g.states
  }

  function Now(h: History): Mesh
    requires |h.states| > 0
  {
    h.states[|h.states| - 1]
  }

  lemma ContinuesOn(a: History, b: History, c: History)
    requires Continues(a, b) && Continues(b, c)
    ensures Continues(a, c)
  {
  }

  ghost function Onward(w: World, h: History, a: Act): History
    requires |h.states| > 0 && Can(w, Now(h), a)
  {
    History(h.states + [After(w, Now(h), a)], h.acts + [a])
  }

  lemma OneMoreAct(w: World, U: set<Slot>, h: History, a: Act)
    requires Lawful(w, U, h) && Can(w, Now(h), a) && !a.Write?
    ensures Lawful(w, U, Onward(w, h, a)) && Continues(h, Onward(w, h, a))
  {
    var g := Onward(w, h, a);
    hide After, Can, Orderly;
    forall i: nat | i < |g.acts|
      ensures Follows(w, U, g.states, g.acts, i)
    {
      if i < |h.acts| {
        assert Follows(w, U, h.states, h.acts, i);
        assert g.states[i] == h.states[i] && g.states[i + 1] == h.states[i + 1] && g.acts[i] == h.acts[i];
      } else {
        assert g.states[i] == Now(h) && g.states[i + 1] == After(w, Now(h), a);
      }
    }
  }

  // What was sent, heard, emptied or announced stays so.
  lemma SentStaysSent(w: World, U: set<Slot>, h: History, g: History, i: nat, j: nat, msg: Message)
    requires Continues(h, g) && j <= |h.acts|
    ensures SentBetween(w, U, h.states, h.acts, i, j, msg) <==> SentBetween(w, U, g.states, g.acts, i, j, msg)
  {
    forall x: nat | i <= x < j
      ensures SentAt(w, U, h.states, h.acts, x, msg) <==> SentAt(w, U, g.states, g.acts, x, msg)
    {
      assert g.acts[x] == h.acts[x] && g.states[x] == h.states[x] && g.states[x + 1] == h.states[x + 1];
    }
  }

  lemma HeardStaysHeard(h: History, g: History, i: nat, j: nat, n: nat, msg: Message)
    requires Continues(h, g) && HeardBetween(h.acts, i, j, n, msg)
    ensures HeardBetween(g.acts, i, j, n, msg)
  {
    var x: nat :| i <= x < j && x < |h.acts| && Hears(h.acts[x], n, msg);
    assert g.acts[x] == h.acts[x];
  }

  lemma CarriedStaysCarried(w: World, U: set<Slot>, h: History, g: History, i: nat, j: nat, k: nat)
    requires Continues(h, g) && j <= |h.acts| && Carried(w, U, h.states, h.acts, i, j, k)
    ensures Carried(w, U, g.states, g.acts, i, j, k)
  {
    forall msg, n: nat | n < |w.ids| && Addressed(w.ids[n], msg) && SentBetween(w, U, g.states, g.acts, i, j, msg)
      ensures HeardBetween(g.acts, j, k, n, msg)
    {
      SentStaysSent(w, U, h, g, i, j, msg);
      HeardStaysHeard(h, g, j, k, n, msg);
    }
  }

  lemma EmptiedStaysEmptied(h: History, g: History, i: nat, j: nat, n: nat)
    requires Continues(h, g) && i <= j <= |h.acts| && Emptied(h.states, h.acts, i, j, n)
    ensures Emptied(g.states, g.acts, i, j, n)
  {
    var x: nat :| i <= x < j && h.acts[x].n == n && n < |h.states[x].queues|
      && Empties(h.acts[x], h.states[x].queues[n]);
    assert g.acts[x] == h.acts[x] && g.states[x] == h.states[x];
  }

  lemma AnnouncedStaysAnnounced(h: History, g: History, i: nat, j: nat, n: nat)
    requires Continues(h, g) && i <= j <= |h.acts| && Announced(h.states, h.acts, i, j, n)
    ensures Announced(g.states, g.acts, i, j, n)
  {
    var x: nat :| i <= x < j && h.acts[x].Announce? && n < |h.states[x].nodes| && h.acts[x].n < |h.states[x].nodes|
                  && h.states[x].nodes[h.acts[x].n].vector == h.states[x].nodes[n].vector;
    assert g.acts[x] == h.acts[x] && g.states[x] == h.states[x];
  }

  // ---- hearing -----------------------------------------------------------------------------------------------

  // Whoever a message on the air is for can hear it.
  lemma CanHear(w: World, U: set<Slot>, m: Mesh, n: nat, msg: Message) returns (a: Act)
    requires Orderly(w, U, m) && n < |w.ids| && msg in m.air && Addressed(w.ids[n], msg)
    ensures Can(w, m, a) && !a.Write? && Hears(a, n, msg)
  {
    var missing: seq<Range> := [];
    if msg.VectorShown? {
      assert Proper(w, U, msg);
      missing := DeltaOver(m.nodes[n].vector, msg.vector, msg.vector.Keys);
      DeltaIsWhole(missing, m.nodes[n].vector, msg.vector);
    }
    a := Hear(n, msg, 0, missing, E.Taken);
  }

  lemma DeltaIsWhole(missing: seq<Range>, mine: Vector, theirs: Vector)
    requires PartialDelta(missing, mine, theirs, theirs.Keys)
    ensures AE.IsDelta(missing, mine, theirs)
  {
    forall o: NodeID | Get(mine, o) < Get(theirs, o)
      ensures exists r :: r in missing && r.origin == o
    {
      assert o in theirs.Keys;
    }
  }

  lemma AirGrows(w: World, m: Mesh, a: Act)
    requires Can(w, m, a)
    ensures m.air <= After(w, m, a).air
  {
  }

  // Everything of a finite list is heard.
  lemma {:induction false} HearAll(w: World, U: set<Slot>, h: History, todo: set<(Message, nat)>) returns (g: History)
    requires Lawful(w, U, h)
    requires forall x :: x in todo ==> x.1 < |w.ids| && Addressed(w.ids[x.1], x.0) && x.0 in Now(h).air
    ensures Lawful(w, U, g) && Continues(h, g)
    ensures forall x :: x in todo ==> HeardBetween(g.acts, |h.acts|, |g.acts|, x.1, x.0)
    decreases todo
  {
    if todo == {} {
      return h;
    }
    var x :| x in todo;
    RunIsOrderly(w, U, h.states, h.acts, |h.acts|);
    hide Orderly, Run, Sent, Addressed;
    var a := CanHear(w, U, Now(h), x.1, x.0);
    OneMoreAct(w, U, h, a);
    AirGrows(w, Now(h), a);
    var next := Onward(w, h, a);
    hide Can, After;
    g := HearAll(w, U, next, todo - {x});
    ContinuesOn(h, next, g);
    assert g.acts[|h.acts|] == a;
    forall y | y in todo
      ensures HeardBetween(g.acts, |h.acts|, |g.acts|, y.1, y.0)
    {
      if y == x {
        assert Hears(g.acts[|h.acts|], y.1, y.0);
      } else {
        HeardEarlier(g.acts, |next.acts|, |h.acts|, |g.acts|, y.1, y.0);
      }
    }
  }

  lemma HeardEarlier(acts: seq<Act>, i: nat, from: nat, j: nat, n: nat, msg: Message)
    requires from <= i && HeardBetween(acts, i, j, n, msg)
    ensures HeardBetween(acts, from, j, n, msg)
  {
  }

  lemma {:induction false} AirOnlyGrows(w: World, U: set<Slot>, states: seq<Mesh>, acts: seq<Act>, i: nat, j: nat)
    requires |states| == |acts| + 1 && Run(w, U, states, acts) && i <= j <= |acts|
    ensures states[i].air <= states[j].air
    decreases j
  {
    if i < j {
      assert Follows(w, U, states, acts, j - 1);
      hide Run, Orderly, Can, After;
      AirOnlyGrows(w, U, states, acts, i, j - 1);
      AirGrows(w, states[j - 1], acts[j - 1]);
    }
  }

  // What was sent is on the air from then on.
  lemma SentIsOnAir(w: World, U: set<Slot>, states: seq<Mesh>, acts: seq<Act>, i: nat, j: nat, msg: Message)
    requires |states| == |acts| + 1 && Run(w, U, states, acts) && j <= |acts|
    requires SentBetween(w, U, states, acts, i, j, msg)
    ensures msg in states[j].air
  {
    hide Run;
    var x: nat :| i <= x < j && SentAt(w, U, states, acts, x, msg);
    AirOnlyGrows(w, U, states, acts, x + 1, j);
  }

  // All that was sent in a stage just over is carried in one that begins now.
  lemma CarryOn(w: World, U: set<Slot>, h: History, i: nat) returns (g: History)
    requires Lawful(w, U, h) && i <= |h.acts|
    ensures Lawful(w, U, g) && Continues(h, g) && Carried(w, U, g.states, g.acts, i, |h.acts|, |g.acts|)
  {
    var j := |h.acts|;
    var todo := set msg, n | msg in Now(h).air && n in Below(|w.ids|) && Addressed(w.ids[n], msg) :: (msg, n);
    g := HearAll(w, U, h, todo);
    forall msg, n: nat | n < |w.ids| && Addressed(w.ids[n], msg) && SentBetween(w, U, g.states, g.acts, i, j, msg)
      ensures HeardBetween(g.acts, j, |g.acts|, n, msg)
    {
      SentStaysSent(w, U, h, g, i, j, msg);
      SentIsOnAir(w, U, h.states, h.acts, i, j, msg);
      assert (msg, n) in todo;
    }
  }

  function Below(n: nat): (s: set<nat>)
    ensures forall i: nat :: i in s <==> i < n
  {
    if n == 0 then {} else Below(n - 1) + {n - 1}
  }

  // ---- firing and announcing --------------------------------------------------------------------------------------

  // When every ask of a queue is due.
  function Latest(queue: seq<E.PendingAsk>): (t: int)
    ensures forall i :: 0 <= i < |queue| ==> queue[i].at <= t
  {
    if queue == [] then 0
    else
      var t := Latest(queue[..|queue| - 1]);
      if t < queue[|queue| - 1].at then queue[|queue| - 1].at else t
  }

  lemma AnAct(w: World, U: set<Slot>, h: History, a: Act)
    requires Lawful(w, U, h) && a.n < |w.ids| && (a.Fire? || a.Announce?)
    ensures Shaped(w, Now(h)) && Can(w, Now(h), a)
    ensures var g := Onward(w, h, a); Lawful(w, U, g) && Continues(h, g)
  {
    RunIsOrderly(w, U, h.states, h.acts, |h.acts|);
    assert Shaped(w, Now(h));
    OneMoreAct(w, U, h, a);
  }

  // The first n nodes fire until their queues are empty.
  lemma {:induction false} FireAll(w: World, U: set<Slot>, h: History, n: nat) returns (g: History)
    requires Lawful(w, U, h) && n <= |w.ids|
    ensures Lawful(w, U, g) && Continues(h, g)
    ensures forall k: nat :: k < n ==> Emptied(g.states, g.acts, |h.acts|, |g.acts|, k)
  {
    if n == 0 {
      return h;
    }
    var before := FireAll(w, U, h, n - 1);
    RunIsOrderly(w, U, before.states, before.acts, |before.acts|);
    var a := Fire(n - 1, Latest(Now(before).queues[n - 1]), (i: nat) => E.Taken);
    AnAct(w, U, before, a);
    hide Run, Orderly, Can, After;
    g := Onward(w, before, a);
    ContinuesOn(h, before, g);
    assert g.acts[|before.acts|] == a && g.states[|before.acts|] == Now(before);
    assert Empties(a, Now(before).queues[n - 1]);
    forall k: nat | k < n
      ensures Emptied(g.states, g.acts, |h.acts|, |g.acts|, k)
    {
      if k < n - 1 {
        EmptiedStaysEmptied(before, g, |h.acts|, |before.acts|, k);
        EmptiedLater(g, |h.acts|, |before.acts|, k);
      }
    }
  }

  lemma EmptiedLater(g: History, i: nat, j: nat, k: nat)
    requires |g.states| == |g.acts| + 1 && i <= j <= |g.acts| && Emptied(g.states, g.acts, i, j, k)
    ensures Emptied(g.states, g.acts, i, |g.acts|, k)
  {
  }

  // And the first n nodes announce their vectors.
  lemma {:induction false} AnnounceAll(w: World, U: set<Slot>, h: History, n: nat) returns (g: History)
    requires Lawful(w, U, h) && n <= |w.ids|
    ensures Lawful(w, U, g) && Continues(h, g)
    ensures forall k: nat :: k < n ==> Announced(g.states, g.acts, |h.acts|, |g.acts|, k)
  {
    if n == 0 {
      return h;
    }
    var before := AnnounceAll(w, U, h, n - 1);
    var a := Announce(n - 1);
    AnAct(w, U, before, a);
    hide Run, Orderly, Can, After;
    g := Onward(w, before, a);
    ContinuesOn(h, before, g);
    assert g.acts[|before.acts|] == a && g.states[|before.acts|] == Now(before);
    forall k: nat | k < n
      ensures Announced(g.states, g.acts, |h.acts|, |g.acts|, k)
    {
      if k < n - 1 {
        AnnouncedStaysAnnounced(before, g, |h.acts|, |before.acts|, k);
        AnnouncedLater(g, |h.acts|, |h.acts|, |before.acts|, k);
      }
    }
  }

  lemma AnnouncedLater(g: History, from: nat, i: nat, j: nat, k: nat)
    requires |g.states| == |g.acts| + 1 && from <= i <= j <= |g.acts| && Announced(g.states, g.acts, i, j, k)
    ensures Announced(g.states, g.acts, from, |g.acts|, k)
  {
  }

  // ---- the round ------------------------------------------------------------------------------------------

  // Old asks fire, vectors are announced and heard, and new asks fire.
  lemma FirstHalf(w: World, U: set<Slot>, h: History) returns (g: History, digests: nat, asks: nat)
    requires Lawful(w, U, h)
    ensures Lawful(w, U, g) && Continues(h, g) && |h.acts| <= digests <= asks <= |g.acts|
    ensures Carried(w, U, g.states, g.acts, |h.acts|, digests, asks)
    ensures forall n: nat :: n < |w.ids| ==>
              && Emptied(g.states, g.acts, |h.acts|, digests, n) && Announced(g.states, g.acts, |h.acts|, digests, n)
              && Emptied(g.states, g.acts, asks, |g.acts|, n)
  {
    hide Run, Carried, Emptied, Announced;
    var a := FireAll(w, U, h, |w.ids|);
    var b := AnnounceAll(w, U, a, |w.ids|);
    ContinuesOn(h, a, b);
    digests := |b.acts|;
    forall n: nat | n < |w.ids|
      ensures Emptied(b.states, b.acts, |h.acts|, digests, n) && Announced(b.states, b.acts, |h.acts|, digests, n)
    {
      EmptiedStaysEmptied(a, b, |h.acts|, |a.acts|, n);
      EmptiedLater(b, |h.acts|, |a.acts|, n);
      AnnouncedLater(b, |h.acts|, |a.acts|, digests, n);
    }
    var c := CarryOn(w, U, b, |h.acts|);
    ContinuesOn(h, b, c);
    asks := |c.acts|;
    g := FireAll(w, U, c, |w.ids|);
    ContinuesOn(h, c, g);
    ContinuesOn(b, c, g);
    CarriedStaysCarried(w, U, c, g, |h.acts|, digests, asks);
    forall n: nat | n < |w.ids|
      ensures Emptied(g.states, g.acts, |h.acts|, digests, n) && Announced(g.states, g.acts, |h.acts|, digests, n)
    {
      EmptiedStaysEmptied(b, g, |h.acts|, digests, n);
      AnnouncedStaysAnnounced(b, g, |h.acts|, digests, n);
    }
  }

  /** Any run, whatever was lost in it, can be continued by a round without losses. */
  lemma ALosslessRoundCanFollow(w: World, U: set<Slot>, h: History) returns (g: History, r: Round)
    requires Lawful(w, U, h)
    ensures Lawful(w, U, g) && Continues(h, g) && r.start == |h.acts| && r.end == |g.acts|
    ensures Lossless(w, U, g.states, g.acts, r)
  {
    var a, digests, asks := FirstHalf(w, U, h);
    hide Run, Carried, Emptied, Announced;
    var b := CarryOn(w, U, a, digests);
    var c := CarryOn(w, U, b, |a.acts|);
    var d := CarryOn(w, U, c, |b.acts|);
    g := CarryOn(w, U, d, |c.acts|);
    r := Round(|h.acts|, digests, asks, |a.acts|, |b.acts|, |c.acts|, |d.acts|, |g.acts|);
    ContinuesOn(c, d, g);
    ContinuesOn(b, c, g);
    ContinuesOn(a, b, g);
    ContinuesOn(h, a, g);
    CarriedStaysCarried(w, U, a, g, |h.acts|, digests, asks);
    CarriedStaysCarried(w, U, b, g, digests, |a.acts|, |b.acts|);
    CarriedStaysCarried(w, U, c, g, |a.acts|, |b.acts|, |c.acts|);
    CarriedStaysCarried(w, U, d, g, |b.acts|, |c.acts|, |d.acts|);
    forall n: nat | n < |w.ids|
      ensures Emptied(g.states, g.acts, |h.acts|, digests, n) && Announced(g.states, g.acts, |h.acts|, digests, n)
      ensures Emptied(g.states, g.acts, asks, |a.acts|, n)
    {
      EmptiedStaysEmptied(a, g, |h.acts|, digests, n);
      AnnouncedStaysAnnounced(a, g, |h.acts|, digests, n);
      EmptiedStaysEmptied(a, g, asks, |a.acts|, n);
    }
  }

  lemma QuietHereAgrees(w: World, U: set<Slot>, h: History)
    requires Lawful(w, U, h) && Quiet(Now(h).nodes, w.hash)
    ensures A.Agreed(Now(h).nodes) <==> !A.Collision(Now(h).nodes, w.hash)
  {
    RunIsOrderly(w, U, h.states, h.acts, |h.acts|);
    hide Run, Quiet, A.Agreed, A.Collision, Federated;
    A.QuietAgreesUnlessCollided(w.area, Now(h).nodes, w.trusts, U, w.hash);
  }

  /** So from anywhere, whatever is still queued and on the air, the mesh can get quiet by its own means, and then all
      vectors agree, unless two different ones hash alike. */
  lemma {:induction false} QuietIsAlwaysInReach(w: World, U: set<Slot>, h: History) returns (g: History)
    requires Lawful(w, U, h) && w.lim.maxRanges >= 1 && w.lim.maxPush >= 1
    ensures Lawful(w, U, g) && Continues(h, g) && Quiet(Now(g).nodes, w.hash)
    ensures A.Agreed(Now(g).nodes) <==> !A.Collision(Now(g).nodes, w.hash)
    decreases Gap(Now(h).nodes, U)
  {
    hide Run, Lossless, Quiet, Gap, A.Agreed, A.Collision;
    if Quiet(Now(h).nodes, w.hash) {
      QuietHereAgrees(w, U, h);
      g := h;
    } else {
      var next, r := ALosslessRoundCanFollow(w, U, h);
      LosslessRoundGains(w, U, next.states, next.acts, r);
      assert next.states[r.start] == Now(h);
      g := QuietIsAlwaysInReach(w, U, next);
      ContinuesOn(h, next, g);
    }
  }
}
