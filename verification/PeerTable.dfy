/** Which radio speaks for which node: two maps that are views of one binding, and the rate at which an unknown
    radio is asked who it is. */
module PeerTable {
  import opened Bytes
  import opened Sorting

  const MAX_CLOCK_SKEW := 24 * 3600 * 1_000_000_000

  datatype Announcement = Announcement(id: NodeID, radio: uint32, at: int)

  datatype Bound = Bound(radio: uint32, at: int)

  datatype Table = Table(byID: map<NodeID, Bound>, byRadio: map<uint32, NodeID>)

  datatype Error = StaleAnnounce

  predicate Fresh(t: Table, a: Announcement, now: int) {
    a.at <= now + MAX_CLOCK_SKEW && (a.id in t.byID ==> a.at > t.byID[a.id].at)
  }

  function Learned(t: Table, a: Announcement, now: int): Table {
    if !Fresh(t, a, now) then t
    else
      var freed := if a.id in t.byID then t.byRadio - {t.byID[a.id].radio} else t.byRadio;
      var left := if a.radio in freed && freed[a.radio] != a.id then t.byID - {freed[a.radio]} else t.byID;
      Table(left[a.id := Bound(a.radio, a.at)], freed[a.radio := a.id])
  }

  ghost predicate Inverse(t: Table) {
    && (forall id :: id in t.byID ==> t.byID[id].radio in t.byRadio && t.byRadio[t.byID[id].radio] == id)
    && (forall radio :: radio in t.byRadio ==> t.byRadio[radio] in t.byID && t.byID[t.byRadio[radio]].radio == radio)
  }

  datatype Binding = Binding(id: NodeID, radio: uint32, announced: int)

  predicate ByID(a: Binding, b: Binding) {
    LexLess(a.id, b.id)
  }

  // Every binding once, in order of node ID.
  ghost predicate Lists(byID: map<NodeID, Bound>, out: seq<Binding>) {
    && Ascending(ByID, out)
    && (forall b :: b in out <==> b.id in byID && byID[b.id] == Bound(b.radio, b.announced))
  }

  class PeerTable {
    var byID: map<NodeID, Bound>
    var byRadio: map<uint32, NodeID>

    ghost function Value(): Table
      reads this
    {
      Table(byID, byRadio)
    }

    constructor ()
      ensures Value() == Table(map[], map[]) && Inverse(Value())
    {
      byID, byRadio := map[], map[];
    }

    method Learn(a: Announcement, now: int) returns (r: Result<(), Error>)
      modifies this
      ensures r == if Fresh(old(Value()), a, now) then Ok(()) else Err(StaleAnnounce)
      ensures Value() == Learned(old(Value()), a, now)
    {
      if a.at > now + MAX_CLOCK_SKEW {
        return Err(StaleAnnounce);
      }
      if a.id in byID {
        var bound := byID[a.id];
        if a.at <= bound.at {
          return Err(StaleAnnounce);
        }
        byRadio := byRadio - {bound.radio};
      }
      if a.radio in byRadio && byRadio[a.radio] != a.id {
        byID := byID - {byRadio[a.radio]};
      }
      byID := byID[a.id := Bound(a.radio, a.at)];
      byRadio := byRadio[a.radio := a.id];
      return Ok(());
    }

    /** Looking a node up and looking its radio up answer each other. */
    method RadioFor(id: NodeID) returns (radio: Option<uint32>)
      requires Inverse(Value())
      ensures radio == if id in byID then Some(byID[id].radio) else None
      ensures radio.Some? ==> radio.value in byRadio && byRadio[radio.value] == id
    {
      radio := if id in byID then Some(byID[id].radio) else None;
    }

    method IDFor(radio: uint32) returns (id: Option<NodeID>)
      requires Inverse(Value())
      ensures id == if radio in byRadio then Some(byRadio[radio]) else None
      ensures id.Some? ==> id.value in byID && byID[id.value].radio == radio
    {
      id := if radio in byRadio then Some(byRadio[radio]) else None;
    }

    method Bindings() returns (out: seq<Binding>)
      ensures Lists(byID, out)
    {
      var found: seq<Binding> := [];
      var todo := byID.Keys;
      while todo != {}
        invariant todo <= byID.Keys
        invariant forall b :: b in found <==> b.id in byID && b.id !in todo && byID[b.id] == Bound(b.radio, b.announced)
        invariant forall i, j :: 0 <= i < j < |found| ==> found[i].id != found[j].id
        decreases todo
      {
        var id :| id in todo;
        found := found + [Binding(id, byID[id].radio, byID[id].at)];
        todo := todo - {id};
      }
      var a := new Binding[|found|](i requires 0 <= i < |found| => found[i]);
      assert a[..] == found;
      SortInPlace(ByID, a);
      out := a[..];
      SortedLists(found);
    }
  }

  lemma SortedLists(found: seq<Binding>)
    requires forall i, j :: 0 <= i < j < |found| ==> found[i].id != found[j].id
    ensures var out := Sorted(ByID, found); Ascending(ByID, out) && forall b :: b in out <==> b in found
  {
    IDsAreOrdered();
    Separated(found);
    SortedAscends(ByID, found);
    SortedPermutes(ByID, found);
    var out := Sorted(ByID, found);
    assert forall b :: b in out <==> b in multiset(out);
    assert forall b :: b in found <==> b in multiset(found);
  }

  lemma IDsAreOrdered()
    ensures StrictOrder(ByID)
  {
    forall a: Binding, b: Binding
      ensures !(ByID(a, b) && ByID(b, a))
    {
      LexTotal(a.id, b.id);
    }
    forall a: Binding, b: Binding, c: Binding | ByID(a, b) && ByID(b, c)
      ensures ByID(a, c)
    {
      LexTransitive(a.id, b.id, c.id);
    }
  }

  lemma Separated(s: seq<Binding>)
    requires forall i, j :: 0 <= i < j < |s| ==> s[i].id != s[j].id
    ensures Separates(ByID, s)
  {
    forall i, j | 0 <= i < j < |s|
      ensures ByID(s[i], s[j]) || ByID(s[j], s[i])
    {
      LexTotal(s[i].id, s[j].id);
    }
  }

  // ---- what learning keeps ---------------------------------------------------------------------------------

  /** The two maps stay inverse to each other. */
  lemma LearnKeepsInverse(t: Table, a: Announcement, now: int)
    requires Inverse(t)
    ensures Inverse(Learned(t, a, now))
  {
  }

  /** An accepted announcement binds its node to its radio and unbinds at most the radio's previous holder; a
      rejected one changes nothing. */
  lemma LearnBindsOnlyItsOwn(t: Table, a: Announcement, now: int, other: NodeID)
    requires Inverse(t) && other != a.id
    ensures var u := Learned(t, a, now);
            if !Fresh(t, a, now) then u == t
            else
              && a.id in u.byID && u.byID[a.id] == Bound(a.radio, a.at)
              && a.radio in u.byRadio && u.byRadio[a.radio] == a.id
              && (other in u.byID <==> other in t.byID && t.byID[other].radio != a.radio)
              && (other in u.byID ==> u.byID[other] == t.byID[other])
  {
  }

  datatype Heard = Heard(a: Announcement, now: int)

  function LearnAll(t: Table, heard: seq<Heard>): Table {
    if heard == [] then t
    else
      var last := |heard| - 1;
      Learned(LearnAll(t, heard[..last]), heard[last].a, heard[last].now)
  }

  /** After any announcements at all the maps are inverse to each other. */
  lemma {:induction false} MapsStayInverse(t: Table, heard: seq<Heard>)
    requires Inverse(t)
    ensures Inverse(LearnAll(t, heard))
  {
    if heard != [] {
      var last := |heard| - 1;
      MapsStayInverse(t, heard[..last]);
      LearnKeepsInverse(LearnAll(t, heard[..last]), heard[last].a, heard[last].now);
    }
  }

  // Bound after every announcement from the first on.
  ghost predicate BoundThroughout(t: Table, heard: seq<Heard>, id: NodeID) {
    forall n :: 0 <= n <= |heard| ==> id in LearnAll(t, heard[..n]).byID
  }

  lemma BoundBefore(t: Table, heard: seq<Heard>, id: NodeID, n: nat)
    requires BoundThroughout(t, heard, id) && n <= |heard|
    ensures BoundThroughout(t, heard[..n], id)
  {
    forall k | 0 <= k <= n
      ensures id in LearnAll(t, heard[..n][..k]).byID
    {
      assert heard[..n][..k] == heard[..k];
    }
  }

  /** While a node stays bound its timestamp never falls, and rises strictly whenever its binding changes. */
  lemma {:induction false} TimestampsRise(t: Table, heard: seq<Heard>, id: NodeID)
    requires BoundThroughout(t, heard, id)
    ensures id in t.byID && id in LearnAll(t, heard).byID
    ensures var before, after := t.byID[id], LearnAll(t, heard).byID[id]; after == before || after.at > before.at
  {
    assert heard[..0] == [] && heard[..|heard|] == heard;
    assert id in LearnAll(t, heard[..0]).byID && id in LearnAll(t, heard[..|heard|]).byID;
    if heard != [] {
      var last := |heard| - 1;
      BoundBefore(t, heard, id, last);
      TimestampsRise(t, heard[..last], id);
    }
  }

  /** So nothing dated no later than a binding is ever accepted again from a node that has stayed bound. */
  lemma OldAnnouncementsAreRefused(t: Table, heard: seq<Heard>, a: Announcement, now: int)
    requires BoundThroughout(t, heard, a.id) && a.id in t.byID && a.at <= t.byID[a.id].at
    ensures !Fresh(LearnAll(t, heard), a, now)
  {
    TimestampsRise(t, heard, a.id);
  }

  /** Losing its radio to another node makes a node's table entry, and its timestamp, go: from then on any
      announcement of its that is not from the far future is accepted. */
  lemma EvictionForgetsTheTimestamp(t: Table, a: Announcement, now: int, later: Announcement, reading: int)
    requires Inverse(t) && Fresh(t, a, now) && later.id in t.byID && later.id != a.id
             && t.byID[later.id].radio == a.radio
    ensures Fresh(Learned(t, a, now), later, reading) <==> later.at <= reading + MAX_CLOCK_SKEW
  {
  }

  // ---- the listing -----------------------------------------------------------------------------------------

  lemma {:induction false} NoRepeats(s: seq<Binding>, b: Binding)
    requires StrictOrder(ByID) && Ascending(ByID, s)
    ensures multiset(s)[b] == if b in s then 1 else 0
  {
    if s != [] {
      var last := |s| - 1;
      PrefixAscends(ByID, s, last);
      NoRepeats(s[..last], b);
      assert s == s[..last] + [s[last]];
      if s[last] in s[..last] {
        var i :| 0 <= i < last && s[i] == s[last];
        AscendingPairs(ByID, s, i, last);
        assert false;
      }
    }
  }

  /** The order in which the map was walked never shows: a table has one listing. */
  lemma ListingIsUnique(byID: map<NodeID, Bound>, s: seq<Binding>, t: seq<Binding>)
    requires Lists(byID, s) && Lists(byID, t)
    ensures s == t
  {
    IDsAreOrdered();
    forall b: Binding
      ensures multiset(s)[b] == multiset(t)[b]
    {
      NoRepeats(s, b);
      NoRepeats(t, b);
    }
    assert multiset(s) == multiset(t);
    AscendingIsUnique(ByID, s, t);
  }

  // ---- asking unknown radios -------------------------------------------------------------------------------

  function Allowed(last: map<uint32, int>, every: int, radio: uint32, now: int): bool {
    radio !in last || now - last[radio] >= every
  }

  class AskRate {
    const every: int
    var last: map<uint32, int>

    constructor (every: int)
      ensures this.every == every && last == map[]
    {
      this.every, last := every, map[];
    }

    method Allow(radio: uint32, now: int) returns (ok: bool)
      modifies this`last
      ensures ok <==> Allowed(old(last), every, radio, now)
      ensures last == if ok then old(last)[radio := now] else old(last)
    {
      if radio in last && now - last[radio] < every {
        return false;
      }
      last := last[radio := now];
      return true;
    }
  }

  datatype Ask = Ask(radio: uint32, now: int)

  // The table, and when each question to one radio went out.
  function Asked(every: int, asks: seq<Ask>, radio: uint32): (map<uint32, int>, seq<int>) {
    if asks == [] then (map[], [])
    else
      var n := |asks| - 1;
      var ((last, times), a) := (Asked(every, asks[..n], radio), asks[n]);
      if !Allowed(last, every, a.radio, a.now) then (last, times)
      else (last[a.radio := a.now], if a.radio == radio then times + [a.now] else times)
  }

  /** Two questions to one radio are never closer than the limit, whatever else is asked between them. */
  lemma {:induction false} QuestionsAreSpaced(every: int, asks: seq<Ask>, radio: uint32)
    ensures var (last, times) := Asked(every, asks, radio);
            && (forall i :: 0 <= i < |times| - 1 ==> times[i + 1] - times[i] >= every)
            && (radio in last <==> times != [])
            && (times != [] ==> times[|times| - 1] == last[radio])
  {
    if asks != [] {
      QuestionsAreSpaced(every, asks[..|asks| - 1], radio);
    }
  }

  // ---- clocks that are wrong -------------------------------------------------------------------------------

  // No binding is dated further ahead of the latest reading than the skew allowed.
  ghost predicate DatedBy(t: Table, now: int) {
    forall id :: id in t.byID ==> t.byID[id].at <= now + MAX_CLOCK_SKEW
  }

  /** However wrong announcers' clocks are, no binding ever stands further in the future than the skew allowed. */
  lemma {:induction false} NothingIsDatedFarAhead(heard: seq<Heard>, now: int)
    requires forall h :: h in heard ==> h.now <= now
    ensures DatedBy(LearnAll(Table(map[], map[]), heard), now)
  {
    if heard != [] {
      var last := |heard| - 1;
      NothingIsDatedFarAhead(heard[..last], now);
      assert heard[last] in heard;
    }
  }

  /** So a node whose clock ran ahead is never locked out for longer than that: once so much time has passed, an
      announcement that carries the present time is accepted. */
  lemma NobodyIsLockedOut(heard: seq<Heard>, now: int, a: Announcement, later: int)
    requires (forall h :: h in heard ==> h.now <= now) && later > now + MAX_CLOCK_SKEW && a.at == later
    ensures Fresh(LearnAll(Table(map[], map[]), heard), a, later)
  {
    NothingIsDatedFarAhead(heard, now);
  }

  /** A question that was not asked lately is always allowed, and only its own radio's count. */
  lemma OthersDoNotDelayAQuestion(every: int, asks: seq<Ask>, radio: uint32, now: int)
    requires forall a :: a in asks && a.radio == radio ==> now - a.now >= every
    ensures Allowed(Asked(every, asks, radio).0, every, radio, now)
  {
    LastWasAnAsk(every, asks, radio);
  }

  lemma {:induction false} LastWasAnAsk(every: int, asks: seq<Ask>, radio: uint32)
    ensures var last := Asked(every, asks, radio).0; radio in last ==> Ask(radio, last[radio]) in asks
  {
    if asks != [] {
      LastWasAnAsk(every, asks[..|asks| - 1], radio);
      assert asks[|asks| - 1] in asks;
      assert forall a :: a in asks[..|asks| - 1] ==> a in asks;
    }
  }
}
