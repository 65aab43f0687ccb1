/** Replication among many nodes: what no run can break, and why two nodes that keep talking converge. */
module AntiEntropy {
  import opened Bytes
  import opened Bundle
  import opened Store
  import opened Sorting
  import opened Framing
  import opened GossipWire

  // ---- runs of a whole federation ---------------------------------------------------------------------

  // One area over all nodes. The air keeps every broadcast forever: what is never delivered was lost,
  // what is delivered twice was duplicated, and any order of delivery is allowed.
  datatype System = System(nodes: seq<AreaLog>, trusts: seq<Trust>, air: set<seq<Record>>, authored: set<Record>)

  datatype Event =
    | Publish(node: nat, recs: seq<Record>, sent: bool)
    | Push(node: nat, recs: seq<Record>)
    | Deliver(node: nat, recs: seq<Record>)

  ghost predicate Holds(log: AreaLog, r: Record) {
    r.seqNo in Slots(log, r.origin) && Slots(log, r.origin)[r.seqNo] == r
  }

  // A node pushes only records it holds, and only broadcasts are delivered.
  ghost predicate Enabled(s: System, e: Event) {
    && |s.nodes| == |s.trusts| && e.node < |s.nodes|
    && (e.Push? ==> forall r :: r in e.recs ==> Holds(s.nodes[e.node], r))
    && (e.Deliver? ==> e.recs in s.air)
  }

  ghost function Next(area: AreaTag, s: System, e: Event): System
    requires Enabled(s, e)
  {
    var log := s.nodes[e.node];
    match e
    case Publish(n, recs, sent) =>
      s.(nodes := s.nodes[n := Applied(s.trusts[n], area, log, recs)],
         air := if sent then s.air + {recs} else s.air,
         authored := s.authored + set r | r in recs)
    case Push(n, recs) => s.(air := s.air + {recs})
    case Deliver(n, recs) => s.(nodes := s.nodes[n := Applied(s.trusts[n], area, log, recs)])
  }

  ghost predicate Possible(area: AreaTag, s: System, run: seq<Event>)
    decreases |run|
  {
    run != [] ==> Enabled(s, run[0]) && Possible(area, Next(area, s, run[0]), run[1..])
  }

  ghost function After(area: AreaTag, s: System, run: seq<Event>): System
    requires Possible(area, s, run)
    decreases |run|
  {
    if run == [] then s else After(area, Next(area, s, run[0]), run[1..])
  }

  ghost predicate AllAuthored(log: AreaLog, authored: set<Record>) {
    forall o: NodeID, k :: k in Slots(log, o) ==> Slots(log, o)[k] in authored
  }

  ghost predicate Sound(area: AreaTag, s: System) {
    && |s.nodes| == |s.trusts|
    && (forall n :: 0 <= n < |s.nodes| ==>
          Exact(s.nodes[n]) && Authentic(s.trusts[n], area, s.nodes[n]) && AllAuthored(s.nodes[n], s.authored))
    && (forall recs, r :: recs in s.air && r in recs ==> r in s.authored)
  }

  lemma AppliedIsAuthored(t: Trust, area: AreaTag, log: AreaLog, recs: seq<Record>, authored: set<Record>)
    requires AllAuthored(log, authored) && forall r :: r in recs ==> r in authored
    ensures AllAuthored(Applied(t, area, log, recs), authored)
  {
    forall o: NodeID, k | k in Slots(Applied(t, area, log, recs), o)
      ensures Slots(Applied(t, area, log, recs), o)[k] in authored
    {
      FiledFromSomewhere(t, area, log, recs, o, k);
      assert k in Slots(log, o) ==> Slots(log, o)[k] in authored;
    }
  }

  lemma StepKeepsSound(area: AreaTag, s: System, e: Event)
    requires Sound(area, s) && Enabled(s, e)
    ensures Sound(area, Next(area, s, e))
    ensures forall n :: 0 <= n < |s.nodes| ==> Extends(s.nodes[n], Next(area, s, e).nodes[n])
  {
    hide Authentic, Exact, Applied;
    var s' := Next(area, s, e);
    var log := s.nodes[e.node];
    match e {
      case Push(n, recs) =>
        forall r | r in recs
          ensures r in s.authored
        {
          assert AllAuthored(log, s.authored) && Holds(log, r);
        }
        forall n | 0 <= n < |s.nodes|
          ensures Extends(s.nodes[n], s'.nodes[n])
        {
        }
      case _ =>
        ApplyKeepsTheLog(s.trusts[e.node], area, log, e.recs);
        assert AllAuthored(log, s'.authored);
        AppliedIsAuthored(s.trusts[e.node], area, log, e.recs, s'.authored);
        forall n | 0 <= n < |s.nodes|
          ensures Extends(s.nodes[n], s'.nodes[n]) && AllAuthored(s'.nodes[n], s'.authored)
        {
          assert AllAuthored(s.nodes[n], s.authored);
        }
    }
  }

  lemma SoundIsVerified(area: AreaTag, s: System)
    requires Sound(area, s)
    ensures forall n :: 0 <= n < |s.nodes| ==> Verified(s.trusts[n], area, s.nodes[n])
  {
    forall n | 0 <= n < |s.nodes|
      ensures Verified(s.trusts[n], area, s.nodes[n])
    {
      assert Authentic(s.trusts[n], area, s.nodes[n]);
    }
  }

  /** Whatever is lost, duplicated or reordered: every vector entry of every node stays the contiguous
      prefix held, every record held was authored and verified, and a filled slot never changes. */
  lemma {:induction false} RunsAreSafe(area: AreaTag, s: System, run: seq<Event>)
    requires Sound(area, s) && Possible(area, s, run)
    ensures Sound(area, After(area, s, run))
    ensures |After(area, s, run).nodes| == |s.nodes|
    ensures forall n :: 0 <= n < |s.nodes| ==> Extends(s.nodes[n], After(area, s, run).nodes[n])
    ensures forall n :: 0 <= n < |s.nodes| ==> Verified(After(area, s, run).trusts[n], area,
            After(area, s, run).nodes[n])
    decreases |run|
  {
    hide Sound, Extends, Verified;
    if run == [] {
      forall n | 0 <= n < |s.nodes|
        ensures Extends(s.nodes[n], s.nodes[n])
      {
        ExtendsItself(s.nodes[n]);
      }
      SoundIsVerified(area, s);
    } else {
      var s1 := Next(area, s, run[0]);
      StepKeepsSound(area, s, run[0]);
      RunsAreSafe(area, s1, run[1..]);
      forall n | 0 <= n < |s.nodes|
        ensures Extends(s.nodes[n], After(area, s, run).nodes[n])
      {
        ExtendsChains(s.nodes[n], s1.nodes[n], After(area, s, run).nodes[n]);
      }
    }
  }

  lemma ExtendsItself(log: AreaLog)
    ensures Extends(log, log)
  {
  }

  lemma ExtendsChains(a: AreaLog, b: AreaLog, c: AreaLog)
    requires Extends(a, b) && Extends(b, c)
    ensures Extends(a, c)
  {
  }

  ghost predicate Unequivocal(authored: set<Record>) {
    forall x, y :: x in authored && y in authored && x.origin == y.origin && x.seqNo == y.seqNo ==> x == y
  }

  /** Absent equivocation, two nodes hold the same records as far as both their vectors reach; with equal
      vectors they hold identical prefixes. */
  lemma VectorsDescribeTheSameRecords(area: AreaTag, s: System, m: nat, n: nat, o: NodeID, k: nat)
    requires Sound(area, s) && Unequivocal(s.authored) && m < |s.nodes| && n < |s.nodes|
    requires 1 <= k <= Get(s.nodes[m].vector, o) && k <= Get(s.nodes[n].vector, o)
    ensures k in Slots(s.nodes[m], o) && k in Slots(s.nodes[n], o)
    ensures Slots(s.nodes[m], o)[k] == Slots(s.nodes[n], o)[k]
  {
    assert Exact(s.nodes[m]) && Exact(s.nodes[n]);
    assert IsHighWater(Slots(s.nodes[m], o), Get(s.nodes[m].vector, o));
    assert IsHighWater(Slots(s.nodes[n], o), Get(s.nodes[n].vector, o));
    assert Authentic(s.trusts[m], area, s.nodes[m]) && Authentic(s.trusts[n], area, s.nodes[n]);
    assert AllAuthored(s.nodes[m], s.authored) && AllAuthored(s.nodes[n], s.authored);
  }

  // ---- sums over origins -------------------------------------------------------------------------------

  ghost function Sum(S: set<NodeID>, f: NodeID -> nat): nat {
    if S == {} then 0
    else
      var o :| o in S;
      f(o) + Sum(S - {o}, f)
  }

  lemma {:induction false} SumTakes(S: set<NodeID>, f: NodeID -> nat, o: NodeID)
    requires o in S
    ensures Sum(S, f) == f(o) + Sum(S - {o}, f)
    decreases S
  {
    var p :| p in S && Sum(S, f) == f(p) + Sum(S - {p}, f);
    if p != o {
      SumTakes(S - {p}, f, o);
      SumTakes(S - {o}, f, p);
      assert S - {p} - {o} == S - {o} - {p};
    }
  }

  lemma {:induction false} SumOrdered(S: set<NodeID>, f: NodeID -> nat, g: NodeID -> nat)
    requires forall o :: o in S ==> f(o) <= g(o)
    ensures Sum(S, f) <= Sum(S, g)
    ensures (exists o :: o in S && f(o) < g(o)) ==> Sum(S, f) < Sum(S, g)
    decreases S
  {
    if S != {} {
      var o :| o in S;
      SumTakes(S, f, o);
      SumTakes(S, g, o);
      SumOrdered(S - {o}, f, g);
    }
  }

  lemma {:induction false} SumIgnoresZeros(S: set<NodeID>, T: set<NodeID>, f: NodeID -> nat)
    requires S <= T && forall o :: o in T - S ==> f(o) == 0
    ensures Sum(S, f) == Sum(T, f)
    decreases T - S
  {
    if T - S != {} {
      var o :| o in T - S;
      SumTakes(T, f, o);
      SumIgnoresZeros(S, T - {o}, f);
    } else {
      forall o | o in T
        ensures o in S
      {
        assert o !in T - S;
      }
      assert S == T;
    }
  }

  // ---- who asks ---------------------------------------------------------------------------------------------

  ghost function Count(v: Vector): nat {
    Sum(v.Keys, o => Get(v, o))
  }

  ghost predicate SameVector(v: Vector, w: Vector) {
    forall o: NodeID :: Get(v, o) == Get(w, o)
  }

  // A full vector exchange would show `mine` something to fetch.
  ghost predicate Behind(mine: Vector, theirs: Vector) {
    exists o: NodeID :: Get(mine, o) < Get(theirs, o)
  }

  // The decision on hearing a digest: the hashes differ and the peer is not behind by count.
  ghost predicate Asks(hash: Vector -> AreaTag, mine: Vector, theirs: Vector) {
    hash(mine) != hash(theirs) && !(SaturatingCount(Count(mine)) > SaturatingCount(Count(theirs)))
  }

  lemma CountOrdered(v: Vector, w: Vector)
    requires !Behind(w, v)
    ensures Count(v) <= Count(w)
    ensures !SameVector(v, w) ==> Count(v) < Count(w)
  {
    var U, f, g := v.Keys + w.Keys, (o: NodeID) => Get(v, o), (o: NodeID) => Get(w, o);
    SumIgnoresZeros(v.Keys, U, f);
    SumIgnoresZeros(w.Keys, U, g);
    forall o: NodeID
      ensures f(o) <= g(o)
    {
    }
    SumOrdered(U, f, g);
    if !SameVector(v, w) {
      var o: NodeID :| Get(v, o) != Get(w, o);
      assert o in U && f(o) < g(o);
    }
  }

  /** Two nodes whose vectors differ, unless their hashes collide, cannot both stay quiet once each hears
      the other's digest: one of them asks and has something to learn, saturated counts included. */
  lemma SomeoneAsksAndLearns(hash: Vector -> AreaTag, a: Vector, b: Vector)
    requires !SameVector(a, b) && hash(a) != hash(b)
    ensures (Asks(hash, a, b) && Behind(a, b)) || (Asks(hash, b, a) && Behind(b, a))
  {
    if Count(a) <= Count(b) {
      if !Behind(a, b) {
        assert SameVector(b, a) ==> SameVector(a, b);
        CountOrdered(b, a);
      }
    } else {
      if !Behind(b, a) {
        CountOrdered(a, b);
      }
    }
  }

  // ---- one round: vector, range request, push, apply ------------------------------------------------------

  // What a vector comparison yields: for each origin we are behind on, exactly the part we lack.
  ghost predicate IsDelta(ranges: seq<Range>, mine: Vector, theirs: Vector) {
    && (forall r :: r in ranges ==> r.from == Get(mine, r.origin) + 1 <= r.to == Get(theirs, r.origin))
    && (forall i, j :: 0 <= i < |ranges| && 0 <= j < |ranges| && i != j ==> ranges[i].origin != ranges[j].origin)
    && (forall o: NodeID :: Get(mine, o) < Get(theirs, o) ==> exists r :: r in ranges && r.origin == o)
  }

  const ByFrom: (Range, Range) -> bool := (a: Range, b: Range) => a.from < b.from

  // The ranges asked for: lowest sequences first, bounded by count and then by bytes.
  function Wanted(missing: seq<Range>, maxRanges: nat): seq<Range> {
    var sorted := Sorted(ByFrom, missing);
    Fitted(if |sorted| > maxRanges then sorted[..maxRanges] else sorted, MAX_CONTROL_MESSAGE)
  }

  // The records pushed in answer, in the order of the request.
  function Collected(log: AreaLog, ranges: seq<Range>, room: nat): (recs: seq<Record>)
    ensures |recs| <= room
  {
    if ranges == [] || room == 0 then []
    else
      var all := RangeOf(Slots(log, ranges[0].origin), ranges[0].from, ranges[0].to);
      var part := if |all| > room then all[..room] else all;
      part + Collected(log, ranges[1..], room - |part|)
  }

  // Everything held of some ranges, one after the other.
  function AllOf(log: AreaLog, ranges: seq<Range>): seq<Record> {
    if ranges == [] then []
    else RangeOf(Slots(log, ranges[0].origin), ranges[0].from, ranges[0].to) + AllOf(log, ranges[1..])
  }

  function FirstOf(recs: seq<Record>, room: nat): seq<Record> {
    if |recs| > room then recs[..room] else recs
  }

  /** The answer to a request is everything held of it, in its order, cut off where the push is full. */
  lemma {:induction false} CollectedIsAllThatFits(log: AreaLog, ranges: seq<Range>, room: nat)
    ensures Collected(log, ranges, room) == FirstOf(AllOf(log, ranges), room)
  {
    if ranges != [] && room > 0 {
      var all := RangeOf(Slots(log, ranges[0].origin), ranges[0].from, ranges[0].to);
      var part := FirstOf(all, room);
      hide RangeOf;
      CollectedIsAllThatFits(log, ranges[1..], room - |part|);
      CutTwice(all, AllOf(log, ranges[1..]), room);
    }
  }

  lemma CutTwice(all: seq<Record>, more: seq<Record>, room: nat)
    ensures var part := FirstOf(all, room);
            |part| <= room && FirstOf(all + more, room) == part + FirstOf(more, room - |part|)
  {
  }

  lemma {:induction false} InsertByFrom(s: seq<Range>, x: Range)
    requires Rising(s)
    ensures Rising(Insert(ByFrom, s, x))
    ensures forall r :: r in Insert(ByFrom, s, x) ==> r in s || r == x
  {
    if s != [] && ByFrom(x, s[|s| - 1]) {
      var init := s[..|s| - 1];
      InsertByFrom(init, x);
      var inner := Insert(ByFrom, init, x);
      forall i | 0 <= i < |inner|
        ensures inner[i].from <= s[|s| - 1].from
      {
        assert inner[i] in inner;
        assert forall r :: r in init ==> exists j :: 0 <= j < |s| - 1 && s[j] == r;
      }
    }
  }

  ghost predicate Rising(s: seq<Range>) {
    forall i, j :: 0 <= i < j < |s| ==> s[i].from <= s[j].from
  }

  lemma {:induction false} SortedRises(s: seq<Range>)
    ensures Rising(Sorted(ByFrom, s))
  {
    if s != [] {
      SortedRises(s[..|s| - 1]);
      InsertByFrom(Sorted(ByFrom, s[..|s| - 1]), s[|s| - 1]);
    }
  }

  lemma CutThenFitted(sorted: seq<Range>, maxRanges: nat)
    ensures var w := Fitted(if |sorted| > maxRanges then sorted[..maxRanges] else sorted, MAX_CONTROL_MESSAGE);
            && w <= sorted
            && (|w| < |sorted| ==>
                  |w| == maxRanges || |w| == MAX_RANGES || RequestSize(sorted[..|w| + 1]) > MAX_CONTROL_MESSAGE)
  {
    var cut := if |sorted| > maxRanges then sorted[..maxRanges] else sorted;
    hide RequestSize, FittedFrom;
    FittedIsLongest(cut, Min(|cut|, MAX_RANGES), MAX_CONTROL_MESSAGE);
    var w := Fitted(cut, MAX_CONTROL_MESSAGE);
    if |w| < |cut| {
      assert cut[..|w| + 1] == sorted[..|w| + 1];
    }
  }

  lemma WantedIsAPrefix(missing: seq<Range>, maxRanges: nat)
    ensures var w, sorted := Wanted(missing, maxRanges), Sorted(ByFrom, missing);
            && w <= sorted
            && (|w| < |missing| ==>
                  |w| == maxRanges || |w| == MAX_RANGES || RequestSize(sorted[..|w| + 1]) > MAX_CONTROL_MESSAGE)
  {
    hide RequestSize, Fitted, Sorted;
    CutThenFitted(Sorted(ByFrom, missing), maxRanges);
  }

  /** Of what is missing the lowest sequences are asked for: nothing left out starts below anything asked for, and
      something is left out only because of the limit on ranges, that of the wire, or that of one message. */
  lemma WantedIsLowest(missing: seq<Range>, maxRanges: nat)
    ensures var w, sorted := Wanted(missing, maxRanges), Sorted(ByFrom, missing);
            && w <= sorted && multiset(sorted) == multiset(missing)
            && (forall i, j :: 0 <= i < |w| <= j < |sorted| ==> w[i].from <= sorted[j].from)
            && (|w| < |missing| ==>
                  |w| == maxRanges || |w| == MAX_RANGES || RequestSize(sorted[..|w| + 1]) > MAX_CONTROL_MESSAGE)
  {
    hide Sorted, RequestSize, Wanted;
    SortedRises(missing);
    SortedPermutes(ByFrom, missing);
    WantedIsAPrefix(missing, maxRanges);
  }

  lemma {:induction false} FittedIsLongest(ranges: seq<Range>, n: nat, maxBytes: int)
    requires n <= |ranges|
    ensures var f := FittedFrom(ranges, n, maxBytes);
            && |f| <= n && f == ranges[..|f|] && (|f| < n ==> RequestSize(ranges[..|f| + 1]) > maxBytes)
  {
    hide RequestSize;
    if n > 0 && RequestSize(ranges[..n]) > maxBytes {
      FittedIsLongest(ranges, n - 1, maxBytes);
    }
  }

  datatype Limits = Limits(maxRanges: nat, maxPush: nat)

  // The log of the asker after a round with nothing lost and nothing refused.
  function AfterRound(t: Trust, area: AreaTag, mine: AreaLog, theirs: AreaLog, missing: seq<Range>, lim: Limits)
    : AreaLog
  {
    var request := SortedReq(RangeReq(area, Wanted(missing, lim.maxRanges)));
    Applied(t, area, mine, Collected(theirs, request.ranges, lim.maxPush))
  }

  lemma WantedIsPartOfTheDelta(missing: seq<Range>, maxRanges: nat)
    requires missing != [] && maxRanges >= 1
    ensures var w := Wanted(missing, maxRanges); w != [] && |w| <= MAX_RANGES && w <= Sorted(ByFrom, missing)
  {
    var sorted := Sorted(ByFrom, missing);
    var cut := if |sorted| > maxRanges then sorted[..maxRanges] else sorted;
    FittedIsNonEmpty(cut, Min(|cut|, MAX_RANGES));
    var f := Fitted(cut, MAX_CONTROL_MESSAGE);
    assert f == cut[..|f|];
  }

  lemma InSorted(less: (Range, Range) -> bool, xs: seq<Range>, r: Range)
    ensures r in Sorted(less, xs) <==> r in xs
  {
    SortedPermutes(less, xs);
    assert r in Sorted(less, xs) <==> r in multiset(Sorted(less, xs));
    assert r in xs <==> r in multiset(xs);
  }

  /** A request is always well formed: it decodes to the ranges asked for, sorted, and fits one packet. */
  lemma RequestSurvivesTheWire(area: AreaTag, missing: seq<Range>, mine: Vector, theirs: Vector, maxRanges: nat)
    requires IsDelta(missing, mine, theirs) && missing != [] && maxRanges >= 1
    ensures var request := RangeReq(area, Wanted(missing, maxRanges));
            && ParseRangeReq(RangeReqWire(SortedReq(request))) == Some(SortedReq(request))
            && |RangeReqWire(SortedReq(request))| <= MAX_CONTROL_MESSAGE
  {
    var w := Wanted(missing, maxRanges);
    WantedIsPartOfTheDelta(missing, maxRanges);
    var sorted := Sorted(ByFrom, missing);
    SortedKeepsOriginsDistinct(ByFrom, missing);
    forall r | r in w
      ensures r.from >= 1
    {
      InSorted(ByFrom, missing, r);
    }
    RangeReqRoundTrip(RangeReq(area, w));
    var cut := if |sorted| > maxRanges then sorted[..maxRanges] else sorted;
    FittedFits(cut, Min(|cut|, MAX_RANGES), MAX_CONTROL_MESSAGE);
    EncodedSize(area, w);
  }

  ghost predicate DistinctOrigins(xs: seq<Range>) {
    forall i, j :: 0 <= i < j < |xs| ==> xs[i].origin != xs[j].origin
  }

  lemma {:induction false} InsertKeepsOriginsDistinct(less: (Range, Range) -> bool, s: seq<Range>, x: Range)
    requires DistinctOrigins(s) && forall r :: r in s ==> r.origin != x.origin
    ensures DistinctOrigins(Insert(less, s, x))
    ensures forall r :: r in Insert(less, s, x) <==> r in s || r == x
  {
    if s != [] {
      var last := |s| - 1;
      InsertKeepsOriginsDistinct(less, s[..last], x);
      assert forall r :: r in s <==> r in s[..last] || r == s[last];
      assert forall r :: r in s[..last] ==> r.origin != s[last].origin;
      assert x.origin != s[last].origin;
      var inner := Insert(less, s[..last], x);
      forall i | 0 <= i < |inner|
        ensures inner[i].origin != s[last].origin
      {
        assert inner[i] in inner;
      }
    }
  }

  lemma {:induction false} SortedKeepsOriginsDistinct(less: (Range, Range) -> bool, s: seq<Range>)
    requires DistinctOrigins(s)
    ensures DistinctOrigins(Sorted(less, s))
    ensures forall r :: r in Sorted(less, s) <==> r in s
  {
    if s != [] {
      var last := |s| - 1;
      SortedKeepsOriginsDistinct(less, s[..last]);
      InsertKeepsOriginsDistinct(less, Sorted(less, s[..last]), s[last]);
      assert forall r :: r in s <==> r in s[..last] || r == s[last];
    }
  }

  // ---- progress ------------------------------------------------------------------------------------------

  ghost function Lack(mine: Vector, theirs: Vector): NodeID -> nat {
    o => if Get(theirs, o) > Get(mine, o) then Get(theirs, o) - Get(mine, o) else 0
  }

  ghost function Deficit(mine: Vector, theirs: Vector): nat {
    Sum(theirs.Keys, Lack(mine, theirs))
  }

  lemma DeficitShrinks(before: Vector, after: Vector, theirs: Vector, o: NodeID)
    requires forall p: NodeID :: Get(before, p) <= Get(after, p)
    requires Get(before, o) < Get(after, o) && Get(before, o) < Get(theirs, o)
    ensures Deficit(after, theirs) < Deficit(before, theirs)
  {
    var f, g := Lack(after, theirs), Lack(before, theirs);
    assert f(o) < g(o) && o in theirs.Keys;
    SumOrdered(theirs.Keys, f, g);
  }

  lemma {:induction false} RangeIsHeld(m: map<nat, Record>, from: nat, to: nat, r: Record)
    requires r in RangeOf(m, from, to)
    ensures exists k :: k in m && m[k] == r
    decreases 1 + to - from
  {
    if from in m && r == m[from] {
    } else {
      RangeIsHeld(m, from + 1, to, r);
    }
  }

  lemma {:induction false} CollectedIsHeld(t: Trust, area: AreaTag, log: AreaLog, ranges: seq<Range>, room: nat,
                                           r: Record)
    requires Authentic(t, area, log) && r in Collected(log, ranges, room)
    ensures Holds(log, r)
  {
    var all := RangeOf(Slots(log, ranges[0].origin), ranges[0].from, ranges[0].to);
    var part := if |all| > room then all[..room] else all;
    if r in part {
      assert r in all;
      RangeIsHeld(Slots(log, ranges[0].origin), ranges[0].from, ranges[0].to, r);
    } else {
      CollectedIsHeld(t, area, log, ranges[1..], room - |part|, r);
    }
  }

  // The first record pushed is the next one the asker lacks from some origin.
  lemma FirstPushed(t: Trust, area: AreaTag, mine: AreaLog, theirs: AreaLog, missing: seq<Range>, lim: Limits)
    returns (r: Record)
    requires Exact(theirs) && Authentic(t, area, theirs)
    requires IsDelta(missing, mine.vector, theirs.vector) && missing != [] && lim.maxRanges >= 1 && lim.maxPush >= 1
    ensures var request := SortedReq(RangeReq(area, Wanted(missing, lim.maxRanges)));
            r in Collected(theirs, request.ranges, lim.maxPush)
    ensures Holds(theirs, r) && Admits(t, area, r)
    ensures r.seqNo == Get(mine.vector, r.origin) + 1 <= Get(theirs.vector, r.origin)
  {
    hide Authentic;
    var w := Wanted(missing, lim.maxRanges);
    var ranges := Sorted(RangeOrder, w);
    WantedIsPartOfTheDelta(missing, lim.maxRanges);
    var first := ranges[0];
    InSorted(RangeOrder, w, first);
    InSorted(ByFrom, missing, first);
    assert first in missing;
    var m := Slots(theirs, first.origin);
    assert IsHighWater(m, Get(theirs.vector, first.origin));
    r := m[first.from as nat];
    SlotIsAuthentic(t, area, theirs, first.origin, first.from);
    FirstCollected(theirs, ranges, lim.maxPush);
  }

  lemma SlotIsAuthentic(t: Trust, area: AreaTag, log: AreaLog, o: NodeID, k: nat)
    requires Authentic(t, area, log) && k in Slots(log, o)
    ensures var r := Slots(log, o)[k]; r.origin == o && r.seqNo == k && Admits(t, area, r) && Holds(log, r)
  {
  }

  lemma FirstCollected(log: AreaLog, ranges: seq<Range>, room: nat)
    requires ranges != [] && room >= 1
    requires ranges[0].from <= ranges[0].to && ranges[0].from in Slots(log, ranges[0].origin)
    ensures Slots(log, ranges[0].origin)[ranges[0].from as nat] in Collected(log, ranges, room)
  {
    var first := ranges[0];
    var m := Slots(log, first.origin);
    var all := RangeOf(m, first.from, first.to);
    var part := if |all| > room then all[..room] else all;
    assert part[0] == m[first.from as nat];
    assert m[first.from as nat] in part;
  }

  // A push with the next record of some origin moves that mark.
  lemma MarkMoves(t: Trust, area: AreaTag, mine: AreaLog, push: seq<Record>, r: Record)
    requires Exact(mine) && r in push && Admits(t, area, r) && r.seqNo == Get(mine.vector, r.origin) + 1
    ensures var after := Applied(t, area, mine, push);
            && (forall p: NodeID :: Get(mine.vector, p) <= Get(after.vector, p))
            && Get(mine.vector, r.origin) < Get(after.vector, r.origin)
            && r.seqNo !in Slots(mine, r.origin) && r.seqNo in Slots(after, r.origin)
  {
    hide Applied, Admits;
    ApplyKeepsTheLog(t, area, mine, push);
    GainedSlot(t, area, mine, push, r);
    var after, o := Applied(t, area, mine, push), r.origin;
    assert IsHighWater(Slots(mine, o), Get(mine.vector, o)) && IsHighWater(Slots(after, o), Get(after.vector, o));
  }

  // A lossless round moves some mark the asker was behind on, and fills a slot the peer has.
  lemma RoundAdvances(t: Trust, area: AreaTag, mine: AreaLog, theirs: AreaLog, missing: seq<Range>, lim: Limits)
    returns (r: Record)
    requires Exact(mine) && Exact(theirs) && Authentic(t, area, theirs)
    requires IsDelta(missing, mine.vector, theirs.vector) && missing != [] && lim.maxRanges >= 1 && lim.maxPush >= 1
    ensures var after := AfterRound(t, area, mine, theirs, missing, lim);
            && (forall p: NodeID :: Get(mine.vector, p) <= Get(after.vector, p))
            && Get(mine.vector, r.origin) < Get(after.vector, r.origin)
            && Get(mine.vector, r.origin) < Get(theirs.vector, r.origin)
            && Holds(theirs, r) && r.seqNo !in Slots(mine, r.origin) && r.seqNo in Slots(after, r.origin)
  {
    r := FirstPushed(t, area, mine, theirs, missing, lim);
    hide Applied, Wanted, Collected, Authentic, IsDelta, Admits, Exact, Holds, SortedReq;
    var ranges := SortedReq(RangeReq(area, Wanted(missing, lim.maxRanges))).ranges;
    MarkMoves(t, area, mine, Collected(theirs, ranges, lim.maxPush), r);
  }

  /** A lossless round strictly shrinks the asker's deficit against the peer it asked. */
  lemma RoundShrinksTheDeficit(t: Trust, area: AreaTag, mine: AreaLog, theirs: AreaLog, missing: seq<Range>,
                               lim: Limits)
    requires Exact(mine) && Exact(theirs) && Authentic(t, area, theirs)
    requires IsDelta(missing, mine.vector, theirs.vector) && missing != [] && lim.maxRanges >= 1 && lim.maxPush >= 1
    ensures var after := AfterRound(t, area, mine, theirs, missing, lim);
            Deficit(after.vector, theirs.vector) < Deficit(mine.vector, theirs.vector)
  {
    hide AfterRound, Deficit;
    var r := RoundAdvances(t, area, mine, theirs, missing, lim);
    var after := AfterRound(t, area, mine, theirs, missing, lim);
    DeficitShrinks(mine.vector, after.vector, theirs.vector, r.origin);
  }

  lemma GainedSlot(t: Trust, area: AreaTag, log: AreaLog, recs: seq<Record>, r: Record)
    requires r in recs && Admits(t, area, r) && Exact(log)
    ensures r.seqNo in Slots(Applied(t, area, log, recs), r.origin)
  {
    var i :| 0 <= i < |recs| && recs[i] == r;
    AdmittedIsHeld(t, area, log, recs, i);
    ApplyAtOrigin(t, area, log, recs, r.origin) by {
      assert IsHighWater(Slots(log, r.origin), Get(log.vector, r.origin));
    }
  }
}
