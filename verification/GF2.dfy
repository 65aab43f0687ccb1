/** Linear systems over GF(2): what Gauss-Jordan elimination on mask/data rows computes.

    A row says that the exclusive or of the source symbols its mask selects is its data. The
    elimination is written as a function here; the decoder runs it in place on arrays and is
    proved equal to this function. */
module GF2 {
  import opened Bytes

  type Mask = seq<bool>

  datatype Equation = Equation(mask: Mask, data: bytes)

  // ---- vectors -------------------------------------------------------------

  function NoBits(k: nat): (m: Mask)
    ensures |m| == k && forall i :: 0 <= i < k ==> !m[i]
  {
    seq(k, _ => false)
  }

  function Unit(k: nat, c: nat): (m: Mask)
    requires c < k
    ensures |m| == k && forall i :: 0 <= i < k ==> (m[i] <==> i == c)
  {
    seq(k, i => i == c)
  }

  function XorMask(a: Mask, b: Mask): (c: Mask)
    requires |a| == |b|
    ensures |c| == |a| && forall i :: 0 <= i < |a| ==> (c[i] <==> a[i] != b[i])
  {
    seq(|a|, i requires 0 <= i < |a| => a[i] != b[i])
  }

  // The inner product of the first n entries.
  function Dot(m: Mask, x: Mask, n: nat): bool
    requires n <= |m| && n <= |x|
  {
    if n == 0 then false else Dot(m, x, n - 1) != (m[n - 1] && x[n - 1])
  }

  ghost predicate IsBlock(src: seq<bytes>, k: nat, w: nat) {
    |src| == k && forall i :: 0 <= i < k ==> |src[i]| == w
  }

  // The exclusive or of those among the first n source symbols that the mask selects.
  function Combine(m: Mask, src: seq<bytes>, n: nat, w: nat): (d: bytes)
    requires n <= |m| && n <= |src|
    requires forall i :: 0 <= i < n ==> |src[i]| == w
    ensures |d| == w
  {
    if n == 0 then Zeros(w)
    else if m[n - 1] then XorBytes(Combine(m, src, n - 1, w), src[n - 1])
    else Combine(m, src, n - 1, w)
  }

  lemma {:induction false} DotLinear(a: Mask, b: Mask, x: Mask, n: nat)
    requires |a| == |b| == |x| && n <= |x|
    ensures Dot(XorMask(a, b), x, n) == (Dot(a, x, n) != Dot(b, x, n))
  {
    if n > 0 {
      DotLinear(a, b, x, n - 1);
    }
  }

  // A product that can only pick up columns c and f.
  lemma {:induction false} DotOfTwo(m: Mask, x: Mask, n: nat, c: nat, f: nat)
    requires n <= |m| && |m| == |x| && c < |m| && f < |m| && c != f
    requires forall j :: 0 <= j < |m| && j != c && j != f ==> !(m[j] && x[j])
    ensures Dot(m, x, n) == ((c < n && m[c] && x[c]) != (f < n && m[f] && x[f]))
  {
    if n > 0 {
      DotOfTwo(m, x, n - 1, c, f);
    }
  }

  lemma {:induction false} DotOfUnit(k: nat, c: nat, x: Mask, n: nat)
    requires c < k == |x| && n <= k
    ensures Dot(Unit(k, c), x, n) == (c < n && x[c])
  {
    if n > 0 {
      DotOfUnit(k, c, x, n - 1);
    }
  }

  lemma {:induction false} DotOfNone(m: Mask, x: Mask, n: nat)
    requires n <= |m| && |m| == |x| && forall j :: 0 <= j < n ==> !m[j]
    ensures !Dot(m, x, n)
  {
    if n > 0 {
      DotOfNone(m, x, n - 1);
    }
  }

  lemma {:induction false} CombineLinear(a: Mask, b: Mask, src: seq<bytes>, n: nat, w: nat)
    requires |a| == |b| && n <= |a| && n <= |src|
    requires forall i :: 0 <= i < n ==> |src[i]| == w
    ensures Combine(XorMask(a, b), src, n, w) == XorBytes(Combine(a, src, n, w), Combine(b, src, n, w))
  {
    if n == 0 {
      XorBytesLaws(Zeros(w), Zeros(w), Zeros(w));
    } else {
      CombineLinear(a, b, src, n - 1, w);
      XorShuffle(Combine(a, src, n - 1, w), Combine(b, src, n - 1, w), src[n - 1]);
    }
  }

  lemma {:induction false} CombineOfUnit(k: nat, c: nat, src: seq<bytes>, n: nat, w: nat)
    requires c < k && IsBlock(src, k, w) && n <= k
    ensures Combine(Unit(k, c), src, n, w) == if c < n then src[c] else Zeros(w)
  {
    if n > 0 {
      CombineOfUnit(k, c, src, n - 1, w);
      XorBytesLaws(src[n - 1], src[n - 1], src[n - 1]);
    }
  }

  // ---- systems -------------------------------------------------------------

  ghost predicate Shaped(eqs: seq<Equation>, k: nat, w: nat) {
    forall r :: 0 <= r < |eqs| ==> |eqs[r].mask| == k && |eqs[r].data| == w
  }

  // src explains every row.
  ghost predicate Satisfies(eqs: seq<Equation>, src: seq<bytes>, k: nat, w: nat)
    requires Shaped(eqs, k, w) && IsBlock(src, k, w)
  {
    forall r :: 0 <= r < |eqs| ==> eqs[r].data == Combine(eqs[r].mask, src, k, w)
  }

  // Flipping the source symbols x selects changes no row.
  ghost predicate Annihilates(eqs: seq<Equation>, x: Mask, k: nat, w: nat)
    requires Shaped(eqs, k, w) && |x| == k
  {
    forall r :: 0 <= r < |eqs| ==> !Dot(eqs[r].mask, x, k)
  }

  // The rows leave no freedom: no non-empty set of source symbols can be flipped unnoticed.
  ghost predicate Determined(eqs: seq<Equation>, k: nat, w: nat)
    requires Shaped(eqs, k, w)
  {
    forall x: Mask :: |x| == k && Annihilates(eqs, x, k, w) ==> x == NoBits(k)
  }

  // ---- Gauss-Jordan elimination ---------------------------------------------

  // The first row at or below `row` with a one in column col; |eqs| when there is none.
  function FindPivot(eqs: seq<Equation>, col: nat, row: nat): (sel: nat)
    requires row <= |eqs| && forall r :: 0 <= r < |eqs| ==> col < |eqs[r].mask|
    ensures row <= sel <= |eqs|
    ensures sel < |eqs| ==> eqs[sel].mask[col]
    ensures forall r :: row <= r < sel ==> !eqs[r].mask[col]
    decreases |eqs| - row
  {
    if row == |eqs| || eqs[row].mask[col] then row else FindPivot(eqs, col, row + 1)
  }

  function SwapRows(eqs: seq<Equation>, i: nat, j: nat): seq<Equation>
    requires i < |eqs| && j < |eqs|
  {
    eqs[i := eqs[j]][j := eqs[i]]
  }

  function XorEquation(a: Equation, b: Equation): Equation
    requires |a.mask| == |b.mask| && |a.data| == |b.data|
  {
    Equation(XorMask(a.mask, b.mask), XorBytes(a.data, b.data))
  }

  // Every other row with a one in column col has the pivot row added to it.
  function ClearColumn(eqs: seq<Equation>, row: nat, col: nat): (out: seq<Equation>)
    requires row < |eqs|
    requires forall r :: 0 <= r < |eqs| ==> |eqs[r].mask| == |eqs[row].mask| && |eqs[r].data| == |eqs[row].data|
    requires col < |eqs[row].mask|
    ensures |out| == |eqs|
  {
    seq(|eqs|, r requires 0 <= r < |eqs| =>
      if r != row && eqs[r].mask[col] then XorEquation(eqs[r], eqs[row]) else eqs[r])
  }

  // An elimination in progress: pivots[c] is the row that carries column c, or -1.
  datatype Elimination = Elimination(eqs: seq<Equation>, pivots: seq<int>, row: nat, col: nat)

  ghost predicate Running(e: Elimination, k: nat, w: nat) {
    Shaped(e.eqs, k, w) && |e.pivots| == k && e.row <= |e.eqs| && e.col <= k
  }

  predicate Finished(e: Elimination, k: nat) {
    e.col == k || e.row == |e.eqs|
  }

  function Next(e: Elimination, k: nat, ghost w: nat): (e': Elimination)
    requires Running(e, k, w) && !Finished(e, k)
    ensures Running(e', k, w) && |e'.eqs| == |e.eqs| && e'.col == e.col + 1
  {
    var sel := FindPivot(e.eqs, e.col, e.row);
    if sel == |e.eqs| then e.(col := e.col + 1)
    else Elimination(ClearColumn(SwapRows(e.eqs, e.row, sel), e.row, e.col), e.pivots[e.col := e.row], e.row + 1,
      e.col + 1)
  }

  function Reduce(e: Elimination, k: nat, ghost w: nat): (red: Elimination)
    requires Running(e, k, w)
    ensures Running(red, k, w) && Finished(red, k) && |red.eqs| == |e.eqs|
    decreases k - e.col
  {
    if Finished(e, k) then e else Reduce(Next(e, k, w), k, w)
  }

  function Start(eqs: seq<Equation>, k: nat): Elimination {
    Elimination(eqs, seq(k, _ => -1), 0, 0)
  }

  predicate Full(e: Elimination) {
    forall c :: 0 <= c < |e.pivots| ==> 0 <= e.pivots[c] < |e.eqs|
  }

  function Solve(eqs: seq<Equation>, k: nat, ghost w: nat): (solved: Option<seq<bytes>>)
    requires Shaped(eqs, k, w)
    ensures solved.Some? ==> IsBlock(solved.value, k, w)
  {
    var red := Reduce(Start(eqs, k), k, w);
    if Full(red)
    then Some(seq(k, c requires 0 <= c < k && Full(red) && k == |red.pivots| => red.eqs[red.pivots[c]].data))
    else None
  }

  // ---- what every elimination step keeps --------------------------------------

  ghost predicate IsPivotRow(pivots: seq<int>, r: nat) {
    exists c :: 0 <= c < |pivots| && pivots[c] == r
  }

  // The first col columns have been visited and row of them carry a pivot, in increasing order.
  ghost predicate PivotTable(pivots: seq<int>, row: nat, col: nat) {
    && row <= col <= |pivots|
    && (forall c :: 0 <= c < col ==> -1 <= pivots[c] < row)
    && (forall c :: col <= c < |pivots| ==> pivots[c] == -1)
    && (forall i, j :: 0 <= i < j < col && pivots[i] >= 0 && pivots[j] >= 0 ==> pivots[i] < pivots[j])
    && (forall r :: 0 <= r < row ==> IsPivotRow(pivots, r))
    && ((forall c :: 0 <= c < col ==> pivots[c] >= 0) ==> row == col)
  }

  // A pivot column has its single one in the pivot row; the unfinished rows are zero in every
  // visited column.
  ghost predicate Cleared(eqs: seq<Equation>, pivots: seq<int>, row: nat, col: nat)
    requires col <= |pivots| && forall r :: 0 <= r < |eqs| ==> |eqs[r].mask| == |pivots|
  {
    && (forall c, r :: 0 <= c < col && 0 <= r < |eqs| && pivots[c] >= 0 ==> (eqs[r].mask[c] <==> r == pivots[c]))
    && (forall c, r :: 0 <= c < col && row <= r < |eqs| ==> !eqs[r].mask[c])
  }

  ghost predicate Echelon(e: Elimination, k: nat, w: nat) {
    Running(e, k, w) && PivotTable(e.pivots, e.row, e.col) && Cleared(e.eqs, e.pivots, e.row, e.col)
  }

  lemma PivotTableSkips(pivots: seq<int>, row: nat, col: nat)
    requires PivotTable(pivots, row, col) && col < |pivots|
    ensures PivotTable(pivots, row, col + 1)
  {
    assert pivots[col] == -1;
  }

  lemma PivotTableGrows(pivots: seq<int>, row: nat, col: nat)
    requires PivotTable(pivots, row, col) && col < |pivots|
    ensures PivotTable(pivots[col := row], row + 1, col + 1)
  {
    var p := pivots[col := row];
    forall r: nat | r <= row
      ensures IsPivotRow(p, r)
    {
      if r == row {
        assert p[col] == r;
      } else {
        assert IsPivotRow(pivots, r);
        var c :| 0 <= c < |pivots| && pivots[c] == r;
        assert p[c] == r;
      }
    }
    assert forall c :: 0 <= c < col ==> p[c] == pivots[c];
  }

  // The pivot row is an unfinished row, so adding it changes no visited column.
  lemma PivotClears(e: Elimination, sel: nat, k: nat, w: nat)
    requires Echelon(e, k, w) && e.col < k && e.row <= sel < |e.eqs| && e.eqs[sel].mask[e.col]
    ensures Shaped(SwapRows(e.eqs, e.row, sel), k, w)
    ensures var out := ClearColumn(SwapRows(e.eqs, e.row, sel), e.row, e.col);
            Shaped(out, k, w) && Cleared(out, e.pivots[e.col := e.row], e.row + 1, e.col + 1)
  {
    var s := SwapRows(e.eqs, e.row, sel);
    var out := ClearColumn(s, e.row, e.col);
    assert s[e.row] == e.eqs[sel];
    forall c, r | 0 <= c < e.col && 0 <= r < |out|
      ensures out[r].mask[c] <==> s[r].mask[c]
    {
      assert !s[e.row].mask[c];
    }
  }

  lemma SkipClears(e: Elimination, k: nat, w: nat)
    requires Echelon(e, k, w) && e.col < k && forall r :: e.row <= r < |e.eqs| ==> !e.eqs[r].mask[e.col]
    ensures Cleared(e.eqs, e.pivots, e.row, e.col + 1)
  {
    assert e.pivots[e.col] == -1;
  }

  lemma NextKeepsEchelon(e: Elimination, k: nat, w: nat)
    requires Echelon(e, k, w) && !Finished(e, k)
    ensures Echelon(Next(e, k, w), k, w)
  {
    hide PivotTable, Cleared;
    var sel := FindPivot(e.eqs, e.col, e.row);
    if sel == |e.eqs| {
      PivotTableSkips(e.pivots, e.row, e.col);
      SkipClears(e, k, w);
    } else {
      PivotTableGrows(e.pivots, e.row, e.col);
      PivotClears(e, sel, k, w);
    }
  }

  lemma SwapKeeps(eqs: seq<Equation>, row: nat, sel: nat, src: seq<bytes>, x: Mask, k: nat, w: nat)
    requires Shaped(eqs, k, w) && row < |eqs| && sel < |eqs| && IsBlock(src, k, w) && |x| == k
    ensures Shaped(SwapRows(eqs, row, sel), k, w)
    ensures Satisfies(SwapRows(eqs, row, sel), src, k, w) == Satisfies(eqs, src, k, w)
    ensures Annihilates(SwapRows(eqs, row, sel), x, k, w) == Annihilates(eqs, x, k, w)
  {
    var e := SwapRows(eqs, row, sel);
    assert e[row] == eqs[sel] && e[sel] == eqs[row];
    assert forall r :: 0 <= r < |eqs| && r != row && r != sel ==> e[r] == eqs[r];
  }

  lemma ClearKeeps(eqs: seq<Equation>, row: nat, col: nat, src: seq<bytes>, x: Mask, k: nat, w: nat)
    requires Shaped(eqs, k, w) && row < |eqs| && col < k && IsBlock(src, k, w) && |x| == k
    ensures Shaped(ClearColumn(eqs, row, col), k, w)
    ensures Satisfies(eqs, src, k, w) ==> Satisfies(ClearColumn(eqs, row, col), src, k, w)
    ensures Annihilates(ClearColumn(eqs, row, col), x, k, w) == Annihilates(eqs, x, k, w)
  {
    var e := ClearColumn(eqs, row, col);
    assert e[row] == eqs[row];
    forall r | 0 <= r < |eqs|
      ensures Dot(e[r].mask, x, k) == if e[r] == eqs[r] then Dot(eqs[r].mask, x, k)
                                      else Dot(eqs[r].mask, x, k) != Dot(eqs[row].mask, x, k)
      ensures Satisfies(eqs, src, k, w) ==> e[r].data == Combine(e[r].mask, src, k, w)
    {
      DotLinear(eqs[r].mask, eqs[row].mask, x, k);
      CombineLinear(eqs[r].mask, eqs[row].mask, src, k, w);
    }
  }

  lemma NextKeepsMeaning(e: Elimination, src: seq<bytes>, x: Mask, k: nat, w: nat)
    requires Running(e, k, w) && !Finished(e, k) && IsBlock(src, k, w) && |x| == k
    ensures Satisfies(e.eqs, src, k, w) ==> Satisfies(Next(e, k, w).eqs, src, k, w)
    ensures Annihilates(Next(e, k, w).eqs, x, k, w) == Annihilates(e.eqs, x, k, w)
  {
    var sel := FindPivot(e.eqs, e.col, e.row);
    if sel < |e.eqs| {
      SwapKeeps(e.eqs, e.row, sel, src, x, k, w);
      ClearKeeps(SwapRows(e.eqs, e.row, sel), e.row, e.col, src, x, k, w);
    }
  }

  lemma {:induction false} ReduceKeepsEchelon(e: Elimination, k: nat, w: nat)
    requires Echelon(e, k, w)
    ensures Echelon(Reduce(e, k, w), k, w)
    decreases k - e.col
  {
    if !Finished(e, k) {
      NextKeepsEchelon(e, k, w);
      ReduceKeepsEchelon(Next(e, k, w), k, w);
    }
  }

  lemma {:induction false} ReduceKeepsMeaning(e: Elimination, src: seq<bytes>, x: Mask, k: nat, w: nat)
    requires Running(e, k, w) && IsBlock(src, k, w) && |x| == k
    ensures Satisfies(e.eqs, src, k, w) ==> Satisfies(Reduce(e, k, w).eqs, src, k, w)
    ensures Annihilates(Reduce(e, k, w).eqs, x, k, w) == Annihilates(e.eqs, x, k, w)
    decreases k - e.col
  {
    if !Finished(e, k) {
      NextKeepsMeaning(e, src, x, k, w);
      ReduceKeepsMeaning(Next(e, k, w), src, x, k, w);
    }
  }

  // ---- the facts about Solve ----------------------------------------------------

  // With a pivot in every column, row pivots[c] is the unit equation for source symbol c.
  lemma PivotRowIsUnit(e: Elimination, k: nat, w: nat, c: nat)
    requires Echelon(e, k, w) && Full(e) && c < k
    ensures e.eqs[e.pivots[c]].mask == Unit(k, c)
  {
    forall j | 0 <= j < k
      ensures e.eqs[e.pivots[c]].mask[j] <==> j == c
    {
      assert e.pivots[j] >= 0 && e.pivots[c] >= 0;
      assert j < e.col && c < e.col;
    }
  }

  lemma SolveIsSound(eqs: seq<Equation>, src: seq<bytes>, k: nat, w: nat)
    requires Shaped(eqs, k, w) && IsBlock(src, k, w) && Satisfies(eqs, src, k, w)
    ensures Solve(eqs, k, w).Some? ==> Solve(eqs, k, w).value == src
  {
    var red := Reduce(Start(eqs, k), k, w);
    ReduceKeepsEchelon(Start(eqs, k), k, w);
    ReduceKeepsMeaning(Start(eqs, k), src, NoBits(k), k, w);
    if Full(red) {
      forall c | 0 <= c < k
        ensures red.eqs[red.pivots[c]].data == src[c]
      {
        PivotRowIsUnit(red, k, w, c);
        CombineOfUnit(k, c, src, k, w);
      }
    }
  }

  // A solved system is determined ...
  lemma SolvedMeansDetermined(eqs: seq<Equation>, x: Mask, k: nat, w: nat)
    requires Shaped(eqs, k, w) && |x| == k && Annihilates(eqs, x, k, w) && Solve(eqs, k, w).Some?
    ensures x == NoBits(k)
  {
    var red := Reduce(Start(eqs, k), k, w);
    ReduceKeepsEchelon(Start(eqs, k), k, w);
    ReduceKeepsMeaning(Start(eqs, k), seq(k, _ => Zeros(w)), x, k, w);
    forall c | 0 <= c < k
      ensures !x[c]
    {
      PivotRowIsUnit(red, k, w, c);
      DotOfUnit(k, c, x, k);
      assert !Dot(red.eqs[red.pivots[c]].mask, x, k);
    }
  }

  // The kernel vector of free column f in a reduced system.
  ghost function KernelVector(e: Elimination, f: nat, k: nat, w: nat): (x: Mask)
    requires Echelon(e, k, w) && f < k
    ensures |x| == k
  {
    seq(k, c requires 0 <= c < k && Echelon(e, k, w) => c == f
      || (0 <= e.pivots[c] < |e.eqs| && e.eqs[e.pivots[c]].mask[f]))
  }

  lemma KernelOfRow(e: Elimination, f: nat, r: nat, k: nat, w: nat)
    requires Echelon(e, k, w) && Finished(e, k) && f < k && e.pivots[f] < 0 && r < |e.eqs|
    ensures !Dot(e.eqs[r].mask, KernelVector(e, f, k, w), k)
  {
    var m, x := e.eqs[r].mask, KernelVector(e, f, k, w);
    if r < e.row {
      assert IsPivotRow(e.pivots, r);
      var c :| 0 <= c < |e.pivots| && e.pivots[c] == r;
      assert m[c] && x[f] && (x[c] <==> m[f]) && c != f;
      forall j | 0 <= j < k && j != c && j != f
        ensures !(m[j] && x[j])
      {
        if x[j] {
          assert e.pivots[j] >= 0 && j < e.col && c < e.col;
          assert e.pivots[j] != r;
        }
      }
      DotOfTwo(m, x, k, c, f);
    } else {
      DotOfNone(m, x, k);
    }
  }

  // ... and an unsolved one has a free column, whose kernel vector is read off the reduced rows.
  lemma UnsolvedMeansFree(eqs: seq<Equation>, k: nat, w: nat) returns (x: Mask)
    requires Shaped(eqs, k, w) && Solve(eqs, k, w).None?
    ensures |x| == k && Annihilates(eqs, x, k, w) && x != NoBits(k)
  {
    var red := Reduce(Start(eqs, k), k, w);
    ReduceKeepsEchelon(Start(eqs, k), k, w);
    var f :| 0 <= f < k && !(0 <= red.pivots[f] < |red.eqs|);
    assert red.pivots[f] < 0;
    x := KernelVector(red, f, k, w);
    forall r | 0 <= r < |red.eqs|
      ensures !Dot(red.eqs[r].mask, x, k)
    {
      KernelOfRow(red, f, r, k, w);
    }
    ReduceKeepsMeaning(Start(eqs, k), seq(k, _ => Zeros(w)), x, k, w);
    assert x[f];
  }

  /** Elimination succeeds exactly when the rows determine every source symbol. */
  lemma SolvesIffDetermined(eqs: seq<Equation>, k: nat, w: nat)
    requires Shaped(eqs, k, w)
    ensures Solve(eqs, k, w).Some? <==> Determined(eqs, k, w)
  {
    if Solve(eqs, k, w).Some? {
      forall x: Mask | |x| == k && Annihilates(eqs, x, k, w)
        ensures x == NoBits(k)
      {
        SolvedMeansDetermined(eqs, x, k, w);
      }
    } else {
      var x := UnsolvedMeansFree(eqs, k, w);
    }
  }

  /** Fewer rows than unknowns never determine them. */
  lemma TooFewRows(eqs: seq<Equation>, k: nat, w: nat)
    requires Shaped(eqs, k, w) && |eqs| < k
    ensures !Determined(eqs, k, w)
  {
    SolvesIffDetermined(eqs, k, w);
    var red := Reduce(Start(eqs, k), k, w);
    ReduceKeepsEchelon(Start(eqs, k), k, w);
    assert red.col == k ==> red.row < red.col;
    if red.col < k {
      assert red.pivots[red.col] == -1;
    }
  }
}
