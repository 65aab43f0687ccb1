/** The replicated log of one node: admission, the contiguous high-water vector, range queries. */
module Store {
  import opened Bytes
  import opened Bundle

  // An absent origin stands at zero.
  type Vector = map<NodeID, nat>

  function Get(v: Vector, o: NodeID): nat {
    if o in v then v[o] else 0
  }

  // One area's log. Gaps are normal; vector is the contiguous high-water mark per origin.
  datatype AreaLog = AreaLog(records: map<NodeID, map<nat, Record>>, vector: Vector)

  function Slots(log: AreaLog, o: NodeID): map<nat, Record> {
    if o in log.records then log.records[o] else map[]
  }

  // Who may write: the keys this node trusts and the signature check itself.
  datatype Trust = Trust(keys: map<NodeID, bytes>, verify: (Record, bytes) -> bool)

  predicate Admits(t: Trust, area: AreaTag, r: Record) {
    r.seqNo != 0 && r.origin in t.keys && t.verify(r, t.keys[r.origin]) && r.area == area
  }

  // ---- the specification ------------------------------------------------------------------------

  // One record: a free slot is filled, a filled slot is never changed.
  function File(log: AreaLog, r: Record): AreaLog {
    if r.seqNo in Slots(log, r.origin) then log
    else log.(records := log.records[r.origin := Slots(log, r.origin)[r.seqNo as nat := r]])
  }

  function FileAll(t: Trust, area: AreaTag, log: AreaLog, recs: seq<Record>): AreaLog {
    if recs == [] then log
    else
      var last := |recs| - 1;
      var before := FileAll(t, area, log, recs[..last]);
      if Admits(t, area, recs[last]) then File(before, recs[last]) else before
  }

  // How many of the records were new.
  function NewCount(t: Trust, area: AreaTag, log: AreaLog, recs: seq<Record>): nat {
    if recs == [] then 0
    else
      var last := |recs| - 1;
      NewCount(t, area, log, recs[..last]) +
      if Admits(t, area, recs[last])
         && recs[last].seqNo !in Slots(FileAll(t, area, log, recs[..last]), recs[last].origin) then 1 else 0
  }

  // How many were refused outright or found their slot taken by different content.
  function RejectCount(t: Trust, area: AreaTag, log: AreaLog, recs: seq<Record>, id: Record -> bytes): nat {
    if recs == [] then 0
    else
      var last := |recs| - 1;
      var slots := Slots(FileAll(t, area, log, recs[..last]), recs[last].origin);
      RejectCount(t, area, log, recs[..last], id) +
      if !Admits(t, area, recs[last]) || (recs[last].seqNo in slots && id(slots[recs[last].seqNo]) != id(recs[last]))
      then 1 else 0
  }

  // The slots above s that are filled.
  ghost function Above(m: map<nat, Record>, s: nat): set<nat> {
    set k | k in m.Keys && k > s
  }

  // Walks up from s while the next slot is filled.
  function Climb(m: map<nat, Record>, s: nat): (h: nat)
    ensures s <= h && h + 1 !in m && forall i :: s < i <= h ==> i in m
    decreases Above(m, s)
  {
    if s + 1 in m then
      assert s + 1 in Above(m, s) && s + 1 !in Above(m, s + 1);
      Climb(m, s + 1)
    else s
  }

  // A mark is only ever set to something higher, so none is stored at zero.
  function Raised(v: Vector, o: NodeID, h: nat): Vector {
    if h > Get(v, o) then v[o := h] else v
  }

  function Advanced(log: AreaLog): Vector {
    map o | o in log.records.Keys + log.vector.Keys && (o in log.vector || Climb(Slots(log, o), 0) > 0) ::
      Climb(Slots(log, o), Get(log.vector, o))
  }

  // Apply on one area.
  function Applied(t: Trust, area: AreaTag, log: AreaLog, recs: seq<Record>): AreaLog {
    var filed := FileAll(t, area, log, recs);
    if NewCount(t, area, log, recs) > 0 then filed.(vector := Advanced(filed)) else filed
  }

  // The records of a range, in sequence order, skipping gaps.
  function RangeOf(m: map<nat, Record>, from: nat, to: nat): (recs: seq<Record>)
    decreases 1 + to - from
  {
    if from > to then []
    else (if from in m then [m[from]] else []) + RangeOf(m, from + 1, to)
  }

  // ---- the object ---------------------------------------------------------------------------------

  class Store {
    var areas: map<AreaTag, AreaLog>
    var trust: Trust
    var rejected: nat
    const id: Record -> bytes

    constructor (tags: set<AreaTag>, trust: Trust, id: Record -> bytes)
      ensures areas == map a | a in tags :: AreaLog(map[], map[])
      ensures this.trust == trust && rejected == 0 && this.id == id
    {
      areas := map a | a in tags :: AreaLog(map[], map[]);
      this.trust, rejected, this.id := trust, 0, id;
    }

    method Apply(area: AreaTag, recs: seq<Record>) returns (applied: nat, ok: bool)
      modifies this`areas, this`rejected
      ensures ok <==> area in old(areas)
      ensures !ok ==> areas == old(areas) && rejected == old(rejected) && applied == 0
      ensures ok ==>
                && areas == old(areas)[area := Applied(trust, area, old(areas)[area], recs)]
                && applied == NewCount(trust, area, old(areas)[area], recs)
                && rejected == old(rejected) + RejectCount(trust, area, old(areas)[area], recs, id)
    {
      if area !in areas {
        return 0, false;
      }
      ghost var log := areas[area];
      var records: map<NodeID, map<nat, Record>> := areas[area].records;
      applied, ok := 0, true;
      for i := 0 to |recs|
        invariant areas == old(areas)
        invariant log.(records := records) == FileAll(trust, area, log, recs[..i])
        invariant applied == NewCount(trust, area, log, recs[..i])
        invariant rejected == old(rejected) + RejectCount(trust, area, log, recs[..i], id)
      {
        var r := recs[i];
        assert recs[..i + 1][..i] == recs[..i];
        if r.seqNo == 0 {
          rejected := rejected + 1;
          continue;
        }
        if r.origin !in trust.keys {
          rejected := rejected + 1;
          continue;
        }
        if !trust.verify(r, trust.keys[r.origin]) {
          rejected := rejected + 1;
          continue;
        }
        if r.area != area {
          rejected := rejected + 1;
          continue;
        }
        var byOrigin: map<nat, Record> := if r.origin in records then records[r.origin] else map[];
        if r.seqNo in byOrigin {
          if id(byOrigin[r.seqNo]) != id(r) {
            rejected := rejected + 1;
          }
          continue;
        }
        records := records[r.origin := byOrigin[r.seqNo as nat := r]];
        applied := applied + 1;
      }
      assert recs[..|recs|] == recs;
      var filed := areas[area].(records := records);
      if applied > 0 {
        var vector := Advance(filed);
        filed := filed.(vector := vector);
      }
      areas := areas[area := filed];
    }

    method Records(area: AreaTag, origin: NodeID, from: nat, to: nat) returns (out: seq<Record>)
      ensures out == if area in areas then RangeOf(Slots(areas[area], origin), from, to) else []
    {
      if area !in areas || origin !in areas[area].records {
        if area in areas {
          NothingInRange(from, to);
        }
        return [];
      }
      var byOrigin := areas[area].records[origin];
      out := [];
      var s := from;
      while s <= to
        invariant from <= s
        invariant out + RangeOf(byOrigin, s, to) == RangeOf(byOrigin, from, to)
        decreases 1 + to - s
      {
        if s in byOrigin {
          out := out + [byOrigin[s]];
        }
        s := s + 1;
      }
    }
  }

  lemma {:induction false} NothingInRange(from: nat, to: nat)
    ensures RangeOf(map[], from, to) == []
    decreases 1 + to - from
  {
    if from <= to {
      NothingInRange(from + 1, to);
    }
  }

  method WalkUp(m: map<nat, Record>, s: nat) returns (h: nat)
    ensures h == Climb(m, s)
  {
    h := s;
    while h + 1 in m
      invariant Climb(m, h) == Climb(m, s)
      decreases Above(m, h)
    {
      assert h + 1 in Above(m, h) && h + 1 !in Above(m, h + 1);
      h := h + 1;
    }
  }

  // Recomputes the high-water mark of every origin with records, one origin at a time.
  method Advance(log: AreaLog) returns (vector: Vector)
    ensures vector == Advanced(log)
  {
    hide Advanced, Climb;
    vector := log.vector;
    var todo := log.records.Keys;
    ghost var goal := Advanced(log);
    AdvancedEntries(log);
    while todo != {}
      invariant todo <= log.records.Keys
      invariant forall o :: o in vector <==> o in log.vector || (o in goal && o !in todo)
      invariant forall o :: o in vector ==> vector[o] == if o in todo then log.vector[o] else goal[o]
      decreases todo
    {
      var o :| o in todo;
      var h := WalkUp(log.records[o], Get(vector, o));
      vector, todo := Raised(vector, o, h), todo - {o};
    }
  }

  lemma AdvancedEntries(log: AreaLog)
    ensures forall o :: o in log.records ==> Climb(log.records[o], Get(log.vector, o)) >= Get(log.vector, o)
    ensures forall o :: o in Advanced(log) <==>
              o in log.vector || (o in log.records && Climb(log.records[o], Get(log.vector, o)) > 0)
    ensures forall o :: o in Advanced(log) ==>
              Advanced(log)[o] == if o in log.records then Climb(log.records[o], Get(log.vector, o)) else log.vector[o]
  {
  }

  // ---- invariants of a log ---------------------------------------------------------------------------

  // h is the length of the unbroken run from 1.
  ghost predicate IsHighWater(m: map<nat, Record>, h: nat) {
    (forall i :: 1 <= i <= h ==> i in m) && h + 1 !in m
  }

  ghost predicate NoZeros(v: Vector) {
    forall o :: o in v ==> v[o] > 0
  }

  // Every vector entry is the contiguous prefix actually held, and none stands at zero.
  ghost predicate Exact(log: AreaLog) {
    (forall o: NodeID :: IsHighWater(Slots(log, o), Get(log.vector, o))) && NoZeros(log.vector)
  }

  // Every record is admissible and filed in its own slot.
  ghost predicate Authentic(t: Trust, area: AreaTag, log: AreaLog) {
    forall o: NodeID, s :: s in Slots(log, o) ==>
      Admits(t, area, Slots(log, o)[s]) && Slots(log, o)[s].origin == o && Slots(log, o)[s].seqNo == s
  }

  // Nothing held in `log` is missing or different in `later`.
  ghost predicate Extends(log: AreaLog, later: AreaLog) {
    forall o: NodeID, s :: s in Slots(log, o) ==> s in Slots(later, o) && Slots(later, o)[s] == Slots(log, o)[s]
  }

  lemma {:induction false} FileAllKeeps(t: Trust, area: AreaTag, log: AreaLog, recs: seq<Record>)
    ensures Extends(log, FileAll(t, area, log, recs))
    ensures Authentic(t, area, log) ==> Authentic(t, area, FileAll(t, area, log, recs))
    ensures FileAll(t, area, log, recs).vector == log.vector
  {
    if recs != [] {
      var last := |recs| - 1;
      FileAllKeeps(t, area, log, recs[..last]);
      var before := FileAll(t, area, log, recs[..last]);
      forall o: NodeID
        ensures Slots(File(before, recs[last]), o) ==
                if o == recs[last].origin && recs[last].seqNo !in Slots(before, o)
                then Slots(before, o)[recs[last].seqNo as nat := recs[last]] else Slots(before, o)
      {
      }
    }
  }

  // No new record means an unchanged log.
  lemma {:induction false} NothingNew(t: Trust, area: AreaTag, log: AreaLog, recs: seq<Record>)
    ensures NewCount(t, area, log, recs) == 0 ==> FileAll(t, area, log, recs) == log
  {
    if recs != [] {
      NothingNew(t, area, log, recs[..|recs| - 1]);
    }
  }

  lemma ClimbIsHighWater(m: map<nat, Record>, s: nat)
    requires forall i :: 1 <= i <= s ==> i in m
    ensures IsHighWater(m, Climb(m, s))
  {
  }

  lemma HighWaterIsUnique(m: map<nat, Record>, g: nat, h: nat)
    requires IsHighWater(m, g) && IsHighWater(m, h)
    ensures g == h
  {
    assert g < h ==> g + 1 in m;
    assert h < g ==> h + 1 in m;
  }

  lemma ApplyAtOrigin(t: Trust, area: AreaTag, log: AreaLog, recs: seq<Record>, o: NodeID)
    requires IsHighWater(Slots(log, o), Get(log.vector, o))
    ensures var out := Applied(t, area, log, recs);
            && Slots(out, o) == Slots(FileAll(t, area, log, recs), o)
            && IsHighWater(Slots(out, o), Get(out.vector, o)) && Get(log.vector, o) <= Get(out.vector, o)
  {
    hide Admits;
    var filed := FileAll(t, area, log, recs);
    FileAllKeeps(t, area, log, recs);
    NothingNew(t, area, log, recs);
    hide FileAll, NewCount;
    if NewCount(t, area, log, recs) > 0 {
      forall i | 1 <= i <= Get(log.vector, o)
        ensures i in Slots(filed, o)
      {
        assert i in Slots(log, o);
      }
      ClimbIsHighWater(Slots(filed, o), Get(log.vector, o));
    }
  }

  /** Applying records keeps the log exact and authentic, moves no mark back, and never changes a
      filled slot. */
  lemma ApplyKeepsTheLog(t: Trust, area: AreaTag, log: AreaLog, recs: seq<Record>)
    requires Exact(log)
    ensures Exact(Applied(t, area, log, recs)) && Extends(log, Applied(t, area, log, recs))
    ensures Authentic(t, area, log) ==> Authentic(t, area, Applied(t, area, log, recs))
    ensures forall o: NodeID :: Get(log.vector, o) <= Get(Applied(t, area, log, recs).vector, o)
  {
    hide Applied, FileAll, Admits;
    FileAllKeeps(t, area, log, recs);
    forall o: NodeID
      ensures var out := Applied(t, area, log, recs);
              && Slots(out, o) == Slots(FileAll(t, area, log, recs), o)
              && IsHighWater(Slots(out, o), Get(out.vector, o)) && Get(log.vector, o) <= Get(out.vector, o)
    {
      assert IsHighWater(Slots(log, o), Get(log.vector, o));
      ApplyAtOrigin(t, area, log, recs, o);
    }
    AppliedHasNoZeros(t, area, log, recs);
  }

  lemma AppliedHasNoZeros(t: Trust, area: AreaTag, log: AreaLog, recs: seq<Record>)
    requires NoZeros(log.vector)
    ensures NoZeros(Applied(t, area, log, recs).vector)
  {
    var filed := FileAll(t, area, log, recs);
    FileAllKeeps(t, area, log, recs);
    hide FileAll, NewCount;
    AdvancedEntries(filed);
    hide Advanced, Climb;
  }

  /** Applying the same records again is a no-op. */
  lemma ApplyIsIdempotent(t: Trust, area: AreaTag, log: AreaLog, recs: seq<Record>)
    ensures var once := Applied(t, area, log, recs);
            NewCount(t, area, once, recs) == 0 && Applied(t, area, once, recs) == once
  {
    var once := Applied(t, area, log, recs);
    forall i | 0 <= i < |recs|
      ensures Admits(t, area, recs[i]) ==> recs[i].seqNo in Slots(once, recs[i].origin)
    {
      if Admits(t, area, recs[i]) {
        AdmittedIsHeld(t, area, log, recs, i);
      }
    }
    AllHeldMeansNothingNew(t, area, once, recs);
    NothingNew(t, area, once, recs);
  }

  lemma {:induction false} AdmittedIsHeld(t: Trust, area: AreaTag, log: AreaLog, recs: seq<Record>, i: nat)
    requires i < |recs| && Admits(t, area, recs[i])
    ensures recs[i].seqNo in Slots(FileAll(t, area, log, recs), recs[i].origin)
  {
    var last := |recs| - 1;
    var before := FileAll(t, area, log, recs[..last]);
    if i < last {
      AdmittedIsHeld(t, area, log, recs[..last], i);
    }
  }

  lemma {:induction false} AllHeldMeansNothingNew(t: Trust, area: AreaTag, log: AreaLog, recs: seq<Record>)
    requires forall i :: 0 <= i < |recs| && Admits(t, area, recs[i]) ==> recs[i].seqNo in Slots(log, recs[i].origin)
    ensures NewCount(t, area, log, recs) == 0
  {
    if recs != [] {
      var last := |recs| - 1;
      AllHeldMeansNothingNew(t, area, log, recs[..last]);
      NothingNew(t, area, log, recs[..last]);
    }
  }

  // Every record is filed under its own sequence.
  ghost predicate OwnSlots(m: map<nat, Record>) {
    forall k :: k in m ==> m[k].seqNo == k
  }

  /** A range is read as exactly what is held of it, lowest sequence first, gaps skipped. */
  lemma {:induction false} RangeIsExactly(m: map<nat, Record>, from: nat, to: nat)
    requires OwnSlots(m)
    ensures forall r :: r in RangeOf(m, from, to) <==> from <= r.seqNo <= to && r.seqNo in m && m[r.seqNo as nat] == r
    ensures forall i, j :: 0 <= i < j < |RangeOf(m, from, to)| ==>
              RangeOf(m, from, to)[i].seqNo < RangeOf(m, from, to)[j].seqNo
    decreases 1 + to - from
  {
    if from <= to {
      RangeIsExactly(m, from + 1, to);
      var rest := RangeOf(m, from + 1, to);
      assert forall i :: 0 <= i < |rest| ==> rest[i] in rest;
    }
  }

  // ---- order ------------------------------------------------------------------------------------------

  // r fills slot (o, s) when it arrives first.
  predicate Fills(t: Trust, area: AreaTag, r: Record, o: NodeID, s: nat) {
    Admits(t, area, r) && r.origin == o && r.seqNo == s
  }

  // A filled slot was filled before, or is filled by one of the records.
  lemma {:induction false} FiledFromSomewhere(t: Trust, area: AreaTag, log: AreaLog, recs: seq<Record>, o: NodeID,
                                              s: nat)
    ensures var out := Slots(FileAll(t, area, log, recs), o);
            && (s in out <==> s in Slots(log, o) || exists r :: r in recs && Fills(t, area, r, o, s))
            && (s in out && s !in Slots(log, o) ==> out[s] in recs && Fills(t, area, out[s], o, s))
            && (s in Slots(log, o) ==> out[s] == Slots(log, o)[s])
  {
    if recs != [] {
      hide Admits;
      var last := |recs| - 1;
      FiledFromSomewhere(t, area, log, recs[..last], o, s);
      assert forall r :: r in recs <==> r in recs[..last] || r == recs[last];
      assert Fills(t, area, recs[last], o, s) || !Fills(t, area, recs[last], o, s);
    }
  }

  /** A slot that was free is filled afterwards exactly when some record for this area, signed by an origin whose key
      is known, claims it under a sequence that is not zero; and such a record is what it holds. */
  lemma OnlyVerifiedRecordsAreFiled(t: Trust, area: AreaTag, log: AreaLog, recs: seq<Record>, o: NodeID, k: nat)
    requires Exact(log) && k !in Slots(log, o)
    ensures var out := Slots(Applied(t, area, log, recs), o);
            && (k in out <==>
                  exists r :: r in recs && r.origin == o && r.seqNo == k != 0 && r.area == area
                              && o in t.keys && t.verify(r, t.keys[o]))
            && (k in out ==>
                  && out[k] in recs && out[k].origin == o && out[k].seqNo == k != 0 && out[k].area == area
                  && o in t.keys && t.verify(out[k], t.keys[o]))
  {
    assert IsHighWater(Slots(log, o), Get(log.vector, o));
    ApplyAtOrigin(t, area, log, recs, o);
    FiledFromSomewhere(t, area, log, recs, o, k);
  }

  // What is held was signed by the origin it is filed under, for this area.
  ghost predicate Verified(t: Trust, area: AreaTag, log: AreaLog) {
    forall o: NodeID, k :: k in Slots(log, o) ==>
      var r := Slots(log, o)[k];
      && r.origin == o && r.seqNo == k != 0 && r.area == area && o in t.keys && t.verify(r, t.keys[o])
  }

  // How many of the records do not verify, or differ from what `log` holds in their slot.
  function Misfits(t: Trust, area: AreaTag, log: AreaLog, recs: seq<Record>, id: Record -> bytes): nat {
    if recs == [] then 0
    else
      var r := recs[|recs| - 1];
      Misfits(t, area, log, recs[..|recs| - 1], id) +
      if r.seqNo != 0 && r.area == area && r.origin in t.keys && t.verify(r, t.keys[r.origin])
         && r.seqNo in Slots(log, r.origin) && id(Slots(log, r.origin)[r.seqNo as nat]) == id(r) then 0 else 1
  }

  lemma {:induction false} RejectedAre(t: Trust, area: AreaTag, log: AreaLog, recs: seq<Record>, id: Record -> bytes,
                                       end: AreaLog)
    requires Extends(FileAll(t, area, log, recs), end)
    ensures RejectCount(t, area, log, recs, id) == Misfits(t, area, end, recs, id)
  {
    if recs != [] {
      var init, r := recs[..|recs| - 1], recs[|recs| - 1];
      var before := FileAll(t, area, log, init);
      if Admits(t, area, r) {
        assert r.seqNo in Slots(File(before, r), r.origin);
      }
      FiledExtends(before, r);
      assert Extends(before, end);
      RejectedAre(t, area, log, init, id, end);
    }
  }

  lemma FiledExtends(log: AreaLog, r: Record)
    ensures Extends(log, File(log, r))
  {
  }

  /** What Apply counts as rejected are exactly the records that do not verify and those that differ from what the
      log then holds in their slot, whatever their order. */
  lemma RejectedAreMisfits(t: Trust, area: AreaTag, log: AreaLog, recs: seq<Record>, id: Record -> bytes)
    ensures RejectCount(t, area, log, recs, id) == Misfits(t, area, Applied(t, area, log, recs), recs, id)
  {
    RejectedAre(t, area, log, recs, id, Applied(t, area, log, recs));
  }

  ghost predicate NoEquivocation(t: Trust, area: AreaTag, recs: seq<Record>) {
    forall x, y ::
      x in recs && y in recs && Admits(t, area, x) && Admits(t, area, y) && x.origin == y.origin && x.seqNo == y.seqNo
      ==> x == y
  }

  /** Absent equivocation, only the set of records applied matters: not their order, not their number. */
  lemma ApplyIsOrderInsensitive(t: Trust, area: AreaTag, log: AreaLog, xs: seq<Record>, ys: seq<Record>, o: NodeID)
    requires Exact(log) && NoEquivocation(t, area, xs) && forall r :: r in xs <==> r in ys
    ensures Slots(Applied(t, area, log, xs), o) == Slots(Applied(t, area, log, ys), o)
    ensures Get(Applied(t, area, log, xs).vector, o) == Get(Applied(t, area, log, ys).vector, o)
  {
    assert IsHighWater(Slots(log, o), Get(log.vector, o));
    ApplyAtOrigin(t, area, log, xs, o);
    ApplyAtOrigin(t, area, log, ys, o);
    hide Applied, FileAll, Admits;
    var mx, my := Slots(FileAll(t, area, log, xs), o), Slots(FileAll(t, area, log, ys), o);
    forall s: nat
      ensures (s in mx <==> s in my) && (s in mx ==> mx[s] == my[s])
    {
      FiledFromSomewhere(t, area, log, xs, o, s);
      FiledFromSomewhere(t, area, log, ys, o, s);
    }
    assert mx == my;
    HighWaterIsUnique(mx, Get(Applied(t, area, log, xs).vector, o), Get(Applied(t, area, log, ys).vector, o));
  }
}
