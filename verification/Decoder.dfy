/** The fountain decoder: what it gathers, when it finishes and what it then returns.

    State is the decoder as a value and Add is one arrival; class Decoder holds the same fields
    and runs the elimination in place. */
module Decoder {
  import opened Bytes
  import opened GF2
  import opened Fountain
  import opened Encoder

  datatype State = State(sender: NodeID, bundleID: uint32, k: nat, symSize: nat, origLen: nat,
                         rows: seq<Equation>, seen: set<uint16>, solved: Option<seq<bytes>>)

  // solved is set exactly when the block has been recovered.
  ghost predicate WellFormed(d: State) {
    && 1 <= d.k <= MAX_K && 1 <= d.symSize <= MAX_SYMBOL_SIZE && 1 <= d.origLen <= d.k * d.symSize
    && Shaped(d.rows, d.k, d.symSize)
    && (d.solved.Some? ==> IsBlock(d.solved.value, d.k, d.symSize))
  }

  function NewState(sender: NodeID, bundleID: uint32, k: int, symSize: int, origLen: int): (r: Option<State>)
    ensures r.Some? <==> 1 <= k <= MAX_K && 1 <= symSize <= MAX_SYMBOL_SIZE && 1 <= origLen <= k * symSize
    ensures r.Some? ==> WellFormed(r.value) && r.value.solved.None?
  {
    if k <= 0 || k > MAX_K || symSize <= 0 || symSize > MAX_SYMBOL_SIZE || origLen <= 0 || origLen > k * symSize
    then None
    else Some(State(sender, bundleID, k, symSize, origLen, [], {}, None))
  }

  predicate Fits(d: State, s: Symbol) {
    s.bundleID == d.bundleID && s.k == d.k && |s.data| == d.symSize
  }

  function RowOf(hash: Hash, d: State, s: Symbol): (e: Equation)
    requires d.k >= 1
    ensures |e.mask| == d.k
  {
    Equation(Coefficients(hash, d.sender, d.bundleID, s.index, d.k), s.data)
  }

  // One arrival. A finished decoder ignores it, as any decoder does a symbol it has seen or one
  // that does not fit the block.
  function Add(hash: Hash, d: State, s: Symbol): (d': State)
    requires WellFormed(d)
    ensures WellFormed(d')
  {
    if d.solved.Some? || !Fits(d, s) || s.index in d.seen then d
    else
      var rows := d.rows + [RowOf(hash, d, s)];
      d.(rows := rows, seen := d.seen + {s.index},
         solved := if |rows| >= d.k then Solve(rows, d.k, d.symSize) else None)
  }

  // ---- the object --------------------------------------------------------------------

  class Decoder {
    const hash: Hash
    const sender: NodeID
    const bundleID: uint32
    const k: nat
    const symSize: nat
    const origLen: nat
    var rows: seq<Equation>
    var seen: map<uint16, bool>
    var solved: seq<bytes>
    var done: bool

    ghost function Value(): State
      reads this
    {
      State(sender, bundleID, k, symSize, origLen, rows, seen.Keys, if done then Some(solved) else None)
    }

    ghost predicate Valid()
      reads this
    {
      WellFormed(Value())
    }

    constructor (hash: Hash, sender: NodeID, bundleID: uint32, k: nat, symSize: nat, origLen: nat)
      requires NewState(sender, bundleID, k, symSize, origLen).Some?
      ensures Valid() && this.hash == hash && Some(Value()) == NewState(sender, bundleID, k, symSize, origLen)
    {
      this.hash := hash;
      this.sender, this.bundleID := sender, bundleID;
      this.k, this.symSize, this.origLen := k, symSize, origLen;
      rows, seen, solved, done := [], map[], [], false;
      new;
      assert seen.Keys == {};
    }

    method AddSymbol(s: Symbol) returns (r: Result<bool, SymbolError>)
      requires Valid()
      modifies this
      ensures Valid() && Value() == Add(hash, old(Value()), s)
      ensures r == if old(done) then Ok(true)
                   else if s.bundleID != bundleID || s.k != k then Err(Mismatched)
                   else if |s.data| != symSize then Err(SymbolSize)
                   else Ok(done)
    {
      if done {
        return Ok(true);
      }
      if s.bundleID != bundleID || s.k != k {
        return Err(Mismatched);
      }
      if |s.data| != symSize {
        return Err(SymbolSize);
      }
      if s.index in seen {
        return Ok(done);
      }
      seen := seen[s.index := true];
      var mask;
      if s.index < k {
        mask := Unit(k, s.index);
      } else {
        var drawn := ComputeMask(hash, sender, bundleID, s.index, k);
        mask := drawn[..];
      }
      rows := rows + [Equation(mask, s.data)];
      if |rows| >= k {
        TrySolve();
      }
      return Ok(done);
    }

    // Gauss-Jordan elimination on a working copy of the rows.
    method TrySolve()
      requires Valid() && !done
      modifies this`solved, this`done
      ensures Valid() && (if done then Some(solved) else None) == Solve(rows, k, symSize)
    {
      var work := new Equation[|rows|](i requires 0 <= i < |rows| reads this => rows[i]);
      assert work[..] == rows;
      var pivotRow := new int[k](_ => -1);
      assert pivotRow[..] == Start(rows, k).pivots;
      ghost var red := Eliminate(work, pivotRow, symSize);
      var found, out := ReadSolution(work, pivotRow);
      if found {
        assert out == Solve(rows, k, symSize).value;
        solved, done := out, true;
      }
    }

    method Payload() returns (r: Result<bytes, SymbolError>)
      requires Valid()
      ensures r == PayloadOf(Value())
    {
      if !done {
        return Err(NotDecoded);
      }
      var out: bytes := [];
      for i := 0 to k
        invariant out == Join(solved[..i])
      {
        assert solved[..i + 1][..i] == solved[..i];
        out := out + solved[i];
      }
      assert solved[..k] == solved;
      JoinLength(solved, k, symSize);
      return Ok(out[..origLen]);
    }
  }

  lemma {:induction false} JoinLength(src: seq<bytes>, k: nat, w: nat)
    requires IsBlock(src, k, w)
    ensures |Join(src)| == k * w
  {
    if k > 0 {
      JoinLength(src[..k - 1], k - 1, w);
      assert k * w == (k - 1) * w + w;
    }
  }

  function PayloadOf(d: State): (r: Result<bytes, SymbolError>)
    requires WellFormed(d)
    ensures r.Ok? <==> d.solved.Some?
  {
    if d.solved.None? then Err(NotDecoded)
    else
      JoinLength(d.solved.value, d.k, d.symSize);
      Ok(Join(d.solved.value)[..d.origLen])
  }

  lemma SwapShape(eqs: seq<Equation>, row: nat, sel: nat, k: nat, w: nat)
    requires Shaped(eqs, k, w) && row < |eqs| && sel < |eqs|
    ensures Shaped(SwapRows(eqs, row, sel), k, w)
  {
  }

  // Forward and backward elimination together, column by column.
  method Eliminate(work: array<Equation>, pivotRow: array<int>, ghost w: nat) returns (ghost red: Elimination)
    requires Shaped(work[..], pivotRow.Length, w)
    modifies work, pivotRow
    ensures red == Reduce(Elimination(old(work[..]), old(pivotRow[..]), 0, 0), pivotRow.Length, w)
    ensures red.eqs == work[..] && red.pivots == pivotRow[..]
  {
    ghost var k := pivotRow.Length;
    var row, col := 0, 0;
    red := Elimination(work[..], pivotRow[..], row, col);
    while col < pivotRow.Length && row < work.Length
      invariant 0 <= row <= work.Length && 0 <= col <= k
      invariant red == Elimination(work[..], pivotRow[..], row, col) && Running(red, k, w)
      invariant Reduce(red, k, w) == Reduce(Elimination(old(work[..]), old(pivotRow[..]), 0, 0), k, w)
      decreases k - col
    {
      red := Next(red, k, w);
      row := VisitColumn(work, pivotRow, row, col, w);
      col := col + 1;
    }
  }

  // One column of the elimination.
  method VisitColumn(work: array<Equation>, pivotRow: array<int>, row: nat, col: nat, ghost w: nat) returns (row': nat)
    requires Shaped(work[..], pivotRow.Length, w) && col < pivotRow.Length && row < work.Length
    modifies work, pivotRow
    ensures Elimination(work[..], pivotRow[..], row', col + 1)
            == Next(Elimination(old(work[..]), old(pivotRow[..]), row, col), pivotRow.Length, w)
  {
    ghost var was := work[..];
    var sel := SelectPivot(work, col, row, pivotRow.Length, w);
    if sel == work.Length {
      return row;
    }
    work[row], work[sel] := work[sel], work[row];
    assert work[..] == SwapRows(was, row, sel);
    SwapShape(was, row, sel, pivotRow.Length, w);
    ClearInPlace(work, row, col, pivotRow.Length, w);
    pivotRow[col] := row;
    return row + 1;
  }

  // The data of the pivot rows, unless some column has none.
  method ReadSolution(work: array<Equation>, pivotRow: array<int>) returns (found: bool, out: seq<bytes>)
    ensures found <==> forall c :: 0 <= c < pivotRow.Length ==> 0 <= pivotRow[c] < work.Length
    ensures found ==> |out| == pivotRow.Length
    ensures found ==> forall c :: 0 <= c < pivotRow.Length ==> out[c] == work[pivotRow[c]].data
  {
    out := [];
    var c := 0;
    while c < pivotRow.Length
      invariant 0 <= c <= pivotRow.Length && |out| == c
      invariant forall i :: 0 <= i < c ==> 0 <= pivotRow[i] < work.Length && out[i] == work[pivotRow[i]].data
    {
      if pivotRow[c] < 0 || pivotRow[c] >= work.Length {
        return false, [];
      }
      out := out + [work[pivotRow[c]].data];
      c := c + 1;
    }
    found := true;
  }

  method SelectPivot(work: array<Equation>, col: nat, row: nat, ghost k: nat, ghost w: nat) returns (sel: nat)
    requires Shaped(work[..], k, w) && col < k && row <= work.Length
    ensures sel == FindPivot(work[..], col, row)
  {
    sel := row;
    while sel < work.Length && !work[sel].mask[col]
      invariant row <= sel <= work.Length
      invariant FindPivot(work[..], col, sel) == FindPivot(work[..], col, row)
    {
      sel := sel + 1;
    }
  }

  method ClearInPlace(work: array<Equation>, row: nat, col: nat, ghost k: nat, ghost w: nat)
    requires Shaped(work[..], k, w) && row < work.Length && col < k
    modifies work
    ensures work[..] == ClearColumn(old(work[..]), row, col)
  {
    ghost var was := work[..];
    ghost var cleared := ClearColumn(was, row, col);
    var r := 0;
    while r < work.Length
      invariant 0 <= r <= work.Length && work[row] == was[row]
      invariant forall i :: 0 <= i < r ==> work[i] == cleared[i]
      invariant forall i :: r <= i < work.Length ==> work[i] == was[i]
    {
      if r != row && work[r].mask[col] {
        work[r] := XorEquation(work[r], work[row]);
      }
      r := r + 1;
    }
  }

  // ---- what a set of received indices determines ------------------------------------------

  // Flipping the source symbols in x changes none of the symbols in I.
  ghost predicate Blind(hash: Hash, e: SourceBlock, I: set<uint16>, x: Mask)
    requires e.k >= 1 && |x| == e.k
  {
    forall i :: i in I ==> !Dot(Coefficients(hash, e.sender, e.bundleID, i, e.k), x, e.k)
  }

  ghost predicate Resolves(hash: Hash, e: SourceBlock, I: set<uint16>)
    requires e.k >= 1
  {
    forall x: Mask :: |x| == e.k && Blind(hash, e, I, x) ==> x == NoBits(e.k)
  }

  // The decoder has heard exactly the symbols of e with indices in I.
  ghost predicate Tracks(hash: Hash, d: State, e: SourceBlock, I: set<uint16>) {
    && WellFormed(d) && IsBlock(e.source, e.k, e.symSize)
    && d.sender == e.sender && d.bundleID == e.bundleID && d.k == e.k && d.symSize == e.symSize
      && d.origLen == e.origLen
    && Satisfies(d.rows, e.source, d.k, d.symSize)
    && (d.solved.None? ==>
          && d.seen == I
          && (forall x: Mask :: |x| == d.k ==> (Annihilates(d.rows, x, d.k, d.symSize) <==> Blind(hash, e, I, x))))
    && (d.solved.Some? <==> Resolves(hash, e, I))
    && (d.solved.Some? ==> d.solved.value == e.source)
  }

  lemma NothingResolvesNothing(hash: Hash, e: SourceBlock)
    requires e.k >= 1
    ensures !Resolves(hash, e, {})
  {
    var x := Unit(e.k, 0);
    assert Blind(hash, e, {}, x) && x[0];
  }

  lemma FreshTracks(hash: Hash, d: State, e: SourceBlock)
    requires WellFormed(d) && IsBlock(e.source, e.k, e.symSize)
    requires Some(d) == NewState(e.sender, e.bundleID, e.k, e.symSize, e.origLen)
    ensures Tracks(hash, d, e, {})
  {
    NothingResolvesNothing(hash, e);
  }

  lemma AddTracks(hash: Hash, d: State, e: SourceBlock, I: set<uint16>, i: uint16)
    requires Tracks(hash, d, e, I)
    ensures Tracks(hash, Add(hash, d, SymbolOf(hash, e, i)), e, I + {i})
  {
    var s := SymbolOf(hash, e, i);
    var d' := Add(hash, d, s);
    if d.solved.Some? {
      forall x: Mask | |x| == e.k && Blind(hash, e, I + {i}, x)
        ensures x == NoBits(e.k)
      {
        assert Blind(hash, e, I, x);
      }
    } else if i in I {
      assert I + {i} == I;
    } else {
      RowAdded(hash, d, e, I, i);
      SolvesIffDetermined(d'.rows, d.k, d.symSize);
      SolveIsSound(d'.rows, e.source, d.k, d.symSize);
      if |d'.rows| < d.k {
        TooFewRows(d'.rows, d.k, d.symSize);
      }
      assert Determined(d'.rows, d.k, d.symSize) <==> Resolves(hash, e, I + {i});
    }
  }

  lemma RowAdded(hash: Hash, d: State, e: SourceBlock, I: set<uint16>, i: uint16)
    requires Tracks(hash, d, e, I) && d.solved.None? && i !in I
    ensures var rows := d.rows + [RowOf(hash, d, SymbolOf(hash, e, i))];
            && Shaped(rows, d.k, d.symSize) && Satisfies(rows, e.source, d.k, d.symSize)
            && forall x: Mask :: |x| == d.k ==>
                 (Annihilates(rows, x, d.k, d.symSize) <==> Blind(hash, e, I + {i}, x))
  {
    var row := RowOf(hash, d, SymbolOf(hash, e, i));
    var rows := d.rows + [row];
    forall x: Mask | |x| == d.k
      ensures Annihilates(rows, x, d.k, d.symSize) <==> Blind(hash, e, I + {i}, x)
    {
      assert Annihilates(rows, x, d.k, d.symSize) <==>
             Annihilates(d.rows, x, d.k, d.symSize) && !Dot(row.mask, x, d.k) by {
        assert forall r :: 0 <= r < |d.rows| ==> rows[r] == d.rows[r];
        assert rows[|d.rows|] == row;
      }
      assert Blind(hash, e, I + {i}, x) <==> Blind(hash, e, I, x) && !Dot(row.mask, x, d.k);
    }
  }

  // ---- whole runs of arrivals ------------------------------------------------------------------

  // A decoder fed the symbols of e with these indices, in this order.
  function Receive(hash: Hash, d: State, e: SourceBlock, arrivals: seq<uint16>): (d': State)
    requires WellFormed(d) && 1 <= e.k <= MAX_K && IsBlock(e.source, e.k, e.symSize)
    ensures WellFormed(d')
  {
    if arrivals == [] then d
    else
      var last := |arrivals| - 1;
      Add(hash, Receive(hash, d, e, arrivals[..last]), SymbolOf(hash, e, arrivals[last]))
  }

  function Indices(arrivals: seq<uint16>): set<uint16> {
    set i | i in arrivals
  }

  lemma {:induction false} ReceiveTracks(hash: Hash, d: State, e: SourceBlock, arrivals: seq<uint16>)
    requires WellFormed(d) && 1 <= e.k <= MAX_K && IsBlock(e.source, e.k, e.symSize) && Tracks(hash, d, e, {})
    ensures Tracks(hash, Receive(hash, d, e, arrivals), e, Indices(arrivals))
  {
    hide Tracks, Add, WellFormed;
    if arrivals == [] {
      assert Indices(arrivals) == {};
    } else {
      var last := |arrivals| - 1;
      ReceiveTracks(hash, d, e, arrivals[..last]);
      AddTracks(hash, Receive(hash, d, e, arrivals[..last]), e, Indices(arrivals[..last]), arrivals[last]);
      assert arrivals == arrivals[..last] + [arrivals[last]];
      assert Indices(arrivals) == Indices(arrivals[..last]) + {arrivals[last]};
    }
  }

  ghost predicate Opened(d: State, e: SourceBlock) {
    NewState(e.sender, e.bundleID, e.k, e.symSize, e.origLen) == Some(d)
  }

  /** Soundness and the exact finishing condition: whatever symbols arrive, in whatever order and
      however often, the decoder is done exactly when the indices received determine the block, and
      then the payload is the original byte for byte. */
  lemma DecoderIsSoundAndComplete(hash: Hash, d: State, e: SourceBlock, payload: bytes, arrivals: seq<uint16>)
    requires IsEncoding(e, payload) && Opened(d, e)
    ensures var d' := Receive(hash, d, e, arrivals);
            && (d'.solved.Some? <==> Resolves(hash, e, Indices(arrivals)))
            && (d'.solved.Some? ==> PayloadOf(d') == Ok(payload))
  {
    FreshTracks(hash, d, e);
    ReceiveTracks(hash, d, e, arrivals);
    SplitRoundTrip(payload, e.symSize);
  }

  /** Order and duplication do not matter: two runs over the same set of indices end the same way. */
  lemma ArrivalOrderIsIrrelevant(hash: Hash, d: State, e: SourceBlock, payload: bytes, a: seq<uint16>, b: seq<uint16>)
    requires IsEncoding(e, payload) && Opened(d, e) && Indices(a) == Indices(b)
    ensures PayloadOf(Receive(hash, d, e, a)) == PayloadOf(Receive(hash, d, e, b))
  {
    DecoderIsSoundAndComplete(hash, d, e, payload, a);
    DecoderIsSoundAndComplete(hash, d, e, payload, b);
  }

  /** Every systematic symbol decodes with no coding overhead. */
  lemma SystematicSymbolsSuffice(hash: Hash, e: SourceBlock, I: set<uint16>)
    requires 1 <= e.k <= MAX_K && forall i: uint16 :: i < e.k ==> i in I
    ensures Resolves(hash, e, I)
  {
    forall x: Mask | |x| == e.k && Blind(hash, e, I, x)
      ensures x == NoBits(e.k)
    {
      forall c: uint16 | c < e.k
        ensures !x[c]
      {
        DotOfUnit(e.k, c, x, e.k);
        assert c in I && !Dot(Coefficients(hash, e.sender, e.bundleID, c, e.k), x, e.k);
      }
    }
  }

  // ---- what an unfinished decoder cannot know ------------------------------------------------------

  // The payload with the first byte of every chunk in x flipped.
  function Flipped(payload: bytes, x: Mask, w: nat): (p: bytes)
    requires w > 0
    ensures |p| == |payload|
  {
    seq(|payload|, j requires 0 <= j < |payload| =>
      if j % w == 0 && j / w < |x| && x[j / w] then Xor(payload[j], 1) else payload[j])
  }

  function FirstByte(w: nat): (b: bytes)
    requires w > 0
    ensures |b| == w
  {
    [1] + Zeros(w - 1)
  }

  lemma SmallMultipleIsZero(d: int, w: int)
    requires -w < d * w < w
    ensures d == 0
  {
  }

  lemma DivModOfSum(i: nat, w: nat, t: nat)
    requires t < w
    ensures (i * w + t) / w == i && (i * w + t) % w == t
  {
    var n := i * w + t;
    var q, r := n / w, n % w;
    assert (q - i) * w == q * w - i * w == t - r;
    SmallMultipleIsZero(q - i, w);
  }

  lemma FlippedChunk(payload: bytes, x: Mask, i: nat, w: nat)
    requires w > 0 && i * w < |payload| && i < |x|
    ensures Chunk(Flipped(payload, x, w), i, w)
            == if x[i] then XorBytes(Chunk(payload, i, w), FirstByte(w)) else Chunk(payload, i, w)
  {
    var c, c' := Chunk(payload, i, w), Chunk(Flipped(payload, x, w), i, w);
    var b := FirstByte(w);
    forall t | 0 <= t < w
      ensures c'[t] == if x[i] then Xor(c[t], b[t]) else c[t]
    {
      DivModOfSum(i, w, t);
      XorNatUnits(c[t]);
      assert (i + 1) * w == i * w + w;
      if i * w + t < |payload| {
        assert c[t] == payload[i * w + t] && c'[t] == Flipped(payload, x, w)[i * w + t];
      }
    }
  }

  lemma {:induction false} CombineFlipped(m: Mask, x: Mask, src: seq<bytes>, src': seq<bytes>, b: bytes, n: nat,
                                          k: nat, w: nat)
    requires IsBlock(src, k, w) && IsBlock(src', k, w) && |m| == |x| == k && n <= k && |b| == w
    requires forall i :: 0 <= i < k ==> src'[i] == if x[i] then XorBytes(src[i], b) else src[i]
    ensures Combine(m, src', n, w) == if Dot(m, x, n) then XorBytes(Combine(m, src, n, w), b) else Combine(m, src, n, w)
  {
    if n > 0 {
      CombineFlipped(m, x, src, src', b, n - 1, k, w);
      XorShuffle(Combine(m, src, n - 1, w), src[n - 1], b);
    }
  }

  /** When the indices received do not determine the block, another payload of the same length gives
      exactly the same symbols, so no decoder could have finished. */
  lemma UnresolvedMeansAmbiguous(hash: Hash, e: SourceBlock, payload: bytes, I: set<uint16>)
    returns (e': SourceBlock, payload': bytes)
    requires IsEncoding(e, payload) && !Resolves(hash, e, I)
    ensures IsEncoding(e', payload') && e'.sender == e.sender && e'.bundleID == e.bundleID && e'.symSize == e.symSize
    ensures |payload'| == |payload| && payload' != payload
    ensures forall i: uint16 :: i in I ==> SymbolOf(hash, e', i) == SymbolOf(hash, e, i)
  {
    var k, w := e.k, e.symSize;
    var x: Mask :| |x| == k && Blind(hash, e, I, x) && x != NoBits(k);
    payload' := Flipped(payload, x, w);
    e' := e.(source := Split(payload', w));
    forall i: nat | i < k
      ensures e'.source[i] == if x[i] then XorBytes(e.source[i], FirstByte(w)) else e.source[i]
    {
      ChunkStartsInside(|payload|, w, i);
      FlippedChunk(payload, x, i, w);
    }
    forall i: uint16 | i in I
      ensures SymbolOf(hash, e', i) == SymbolOf(hash, e, i)
    {
      CombineFlipped(Coefficients(hash, e.sender, e.bundleID, i, k), x, e.source, e'.source, FirstByte(w), k, k, w);
    }
    FlipIsVisible(payload, x, k, w);
  }

  lemma FlipIsVisible(payload: bytes, x: Mask, k: nat, w: nat)
    requires w > 0 && k == SymbolCount(|payload|, w) && |x| == k && x != NoBits(k)
    ensures Flipped(payload, x, w) != payload
  {
    assert exists c :: 0 <= c < k && x[c];
    var c :| 0 <= c < k && x[c];
    ChunkStartsInside(|payload|, w, c);
    DivModOfSum(c, w, 0);
    var j := c * w;
    XorNatDigits(payload[j], 1);
    assert Flipped(payload, x, w)[j] == Xor(payload[j], 1);
  }
}
