/** Byte-wise order, and sorting by a strict order: as a function and in place. */
module Sorting {
  import opened Bytes

  // ---- byte-wise order -----------------------------------------------------------------------

  // The first differing byte decides.
  function LexLess(a: bytes, b: bytes): bool
    requires |a| == |b|
  {
    if a == [] then false
    else if a[0] != b[0] then a[0] < b[0]
    else LexLess(a[1..], b[1..])
  }

  lemma {:induction false} LexTotal(a: bytes, b: bytes)
    requires |a| == |b|
    ensures a == b || LexLess(a, b) || LexLess(b, a)
    ensures !(LexLess(a, b) && LexLess(b, a)) && !LexLess(a, a)
  {
    if a != [] {
      LexTotal(a[1..], b[1..]);
      assert a == [a[0]] + a[1..] && b == [b[0]] + b[1..];
    }
  }

  lemma {:induction false} LexTransitive(a: bytes, b: bytes, c: bytes)
    requires |a| == |b| == |c| && LexLess(a, b) && LexLess(b, c)
    ensures LexLess(a, c)
  {
    if a[0] == b[0] == c[0] {
      LexTransitive(a[1..], b[1..], c[1..]);
    }
  }

  // ---- strict orders ---------------------------------------------------------------------------

  ghost predicate StrictOrder<T(!new)>(less: (T, T) -> bool) {
    && (forall x :: !less(x, x))
    && (forall x, y, z :: less(x, y) && less(y, z) ==> less(x, z))
  }

  // The order tells any two elements of s apart.
  ghost predicate Separates<T>(less: (T, T) -> bool, s: seq<T>) {
    forall i, j :: 0 <= i < |s| && 0 <= j < |s| && i != j ==> less(s[i], s[j]) || less(s[j], s[i])
  }

  predicate Ascending<T(!new)>(less: (T, T) -> bool, s: seq<T>) {
    forall i :: 0 <= i < |s| - 1 ==> less(s[i], s[i + 1])
  }

  lemma {:induction false} AscendingPairs<T(!new)>(less: (T, T) -> bool, s: seq<T>, i: nat, j: nat)
    requires StrictOrder(less) && Ascending(less, s) && i < j < |s|
    ensures less(s[i], s[j])
    decreases j
  {
    if i < j - 1 {
      AscendingPairs(less, s, i, j - 1);
      assert less(s[j - 1], s[j - 1 + 1]);
    }
  }

  // ---- insertion sort --------------------------------------------------------------------------

  function Insert<T(!new)>(less: (T, T) -> bool, s: seq<T>, x: T): (r: seq<T>)
    ensures |r| == |s| + 1
  {
    if s == [] then [x]
    else
      var last := |s| - 1;
      if less(x, s[last]) then Insert(less, s[..last], x) + [s[last]] else s + [x]
  }

  function Sorted<T(!new)>(less: (T, T) -> bool, s: seq<T>): (r: seq<T>)
    ensures |r| == |s|
  {
    if s == [] then []
    else
      var last := |s| - 1;
      Insert(less, Sorted(less, s[..last]), s[last])
  }

  lemma {:induction false} InsertPermutes<T(!new)>(less: (T, T) -> bool, s: seq<T>, x: T)
    ensures multiset(Insert(less, s, x)) == multiset(s) + multiset{x}
  {
    if s != [] {
      var last := |s| - 1;
      InsertPermutes(less, s[..last], x);
      assert s == s[..last] + [s[last]];
    }
  }

  lemma {:induction false} SortedPermutes<T(!new)>(less: (T, T) -> bool, s: seq<T>)
    ensures multiset(Sorted(less, s)) == multiset(s)
  {
    if s != [] {
      var last := |s| - 1;
      SortedPermutes(less, s[..last]);
      InsertPermutes(less, Sorted(less, s[..last]), s[last]);
      assert s == s[..last] + [s[last]];
    }
  }

  lemma {:induction false} InsertAscends<T(!new)>(less: (T, T) -> bool, s: seq<T>, x: T)
    requires StrictOrder(less) && Ascending(less, s)
    requires forall i :: 0 <= i < |s| ==> less(s[i], x) || less(x, s[i])
    ensures Ascending(less, Insert(less, s, x))
  {
    if s != [] && less(x, s[|s| - 1]) {
      var last := |s| - 1;
      var r := Insert(less, s[..last], x);
      InsertAscends(less, s[..last], x);
      LastOfInsert(less, s[..last], x);
      if last > 0 {
        assert less(s[last - 1], s[last - 1 + 1]);
      }
    }
  }

  lemma LastOfInsert<T(!new)>(less: (T, T) -> bool, s: seq<T>, x: T)
    ensures var r := Insert(less, s, x); r[|s|] == x || (s != [] && r[|s|] == s[|s| - 1])
  {
  }

  lemma SameElements<T>(s: seq<T>, t: seq<T>, i: nat) returns (j: nat)
    requires multiset(s) == multiset(t) && i < |s|
    ensures j < |t| && t[j] == s[i]
  {
    assert s[i] in multiset(t);
    j :| 0 <= j < |t| && t[j] == s[i];
  }

  lemma NothingAscends<T(!new)>(less: (T, T) -> bool, s: seq<T>)
    requires s == []
    ensures Ascending(less, s)
  {
  }

  lemma {:induction false} SortedAscends<T(!new)>(less: (T, T) -> bool, s: seq<T>)
    requires StrictOrder(less) && Separates(less, s)
    ensures Ascending(less, Sorted(less, s))
  {
    hide StrictOrder, Ascending;
    if s == [] {
      NothingAscends(less, Sorted(less, s));
    } else {
      var last := |s| - 1;
      assert Separates(less, s[..last]);
      SortedAscends(less, s[..last]);
      var r := Sorted(less, s[..last]);
      SortedPermutes(less, s[..last]);
      forall i | 0 <= i < |r|
        ensures less(r[i], s[last]) || less(s[last], r[i])
      {
        var j := SameElements(r, s[..last], i);
        assert r[i] == s[j];
      }
      InsertAscends(less, r, s[last]);
    }
  }

  lemma SameLast<T(!new)>(less: (T, T) -> bool, s: seq<T>, t: seq<T>)
    requires StrictOrder(less) && Ascending(less, s) && Ascending(less, t) && multiset(s) == multiset(t)
    requires |s| == |t| > 0
    ensures s[|s| - 1] == t[|s| - 1]
  {
    var last := |s| - 1;
    var j := SameElements(s, t, last);
    var i := SameElements(t, s, last);
    if j < last {
      AscendingPairs(less, t, j, last);
    }
    if i < last {
      AscendingPairs(less, s, i, last);
    }
  }

  lemma DropLast<T>(s: seq<T>)
    requires s != []
    ensures multiset(s[..|s| - 1]) == multiset(s) - multiset{s[|s| - 1]}
  {
    assert s == s[..|s| - 1] + [s[|s| - 1]];
  }

  lemma SameInit<T>(s: seq<T>, t: seq<T>)
    requires multiset(s) == multiset(t) && |s| == |t| > 0 && s[|s| - 1] == t[|t| - 1]
    ensures multiset(s[..|s| - 1]) == multiset(t[..|t| - 1])
  {
    DropLast(s);
    DropLast(t);
  }

  /** A strictly ascending arrangement is the only one. */
  lemma {:induction false} AscendingIsUnique<T(!new)>(less: (T, T) -> bool, s: seq<T>, t: seq<T>)
    requires StrictOrder(less) && Ascending(less, s) && Ascending(less, t) && multiset(s) == multiset(t)
    ensures s == t
  {
    hide StrictOrder, Ascending;
    assert |multiset(s)| == |s| && |multiset(t)| == |t|;
    if s != [] {
      var last := |s| - 1;
      SameLast(less, s, t);
      SameInit(s, t);
      PrefixAscends(less, s, last);
      PrefixAscends(less, t, last);
      AscendingIsUnique(less, s[..last], t[..last]);
      assert s == s[..last] + [s[last]] && t == t[..last] + [t[last]];
    }
  }

  lemma PrefixAscends<T(!new)>(less: (T, T) -> bool, s: seq<T>, n: nat)
    requires Ascending(less, s) && n <= |s|
    ensures Ascending(less, s[..n])
  {
  }

  // Insertion puts x after the last element it does not precede.
  lemma {:induction false} InsertAt<T(!new)>(less: (T, T) -> bool, s: seq<T>, x: T, j: nat)
    requires j <= |s| && (forall k :: j <= k < |s| ==> less(x, s[k])) && (j > 0 ==> !less(x, s[j - 1]))
    ensures Insert(less, s, x) == s[..j] + [x] + s[j..]
  {
    if j < |s| {
      var last := |s| - 1;
      InsertAt(less, s[..last], x, j);
      assert s[..last][..j] == s[..j] && s[..last][j..] + [s[last]] == s[j..];
    } else {
      assert s[..j] == s && s[j..] == [];
    }
  }

  // The element at i sinks into the sorted elements before it.
  method Sink<T(!new)>(less: (T, T) -> bool, a: array<T>, i: nat)
    requires i < a.Length
    modifies a
    ensures a[..i + 1] == Insert(less, old(a[..i]), old(a[i]))
    ensures a[i + 1..] == old(a[i + 1..])
  {
    ghost var x, s := a[i], a[..i];
    var j := i;
    while j > 0 && less(a[j], a[j - 1])
      invariant 0 <= j <= i && a[j] == x
      invariant forall k :: 0 <= k < j ==> a[k] == s[k]
      invariant forall k :: j < k <= i ==> a[k] == s[k - 1]
      invariant forall k :: i < k < a.Length ==> a[k] == old(a[k])
      invariant forall k :: j <= k < i ==> less(x, s[k])
    {
      a[j], a[j - 1] := a[j - 1], a[j];
      j := j - 1;
    }
    InsertAt(less, s, x, j);
  }

  method SortInPlace<T(!new)>(less: (T, T) -> bool, a: array<T>)
    modifies a
    ensures a[..] == Sorted(less, old(a[..]))
  {
    ghost var was := a[..];
    var i := 0;
    while i < a.Length
      invariant 0 <= i <= a.Length
      invariant a[..i] == Sorted(less, was[..i])
      invariant a[i..] == was[i..]
    {
      assert was[..i + 1][..i] == was[..i] && a[i..][0] == was[i..][0];
      assert a[i..][1..] == was[i..][1..];
      Sink(less, a, i);
      i := i + 1;
    }
    assert a[..i] == a[..] && was[..i] == was;
  }
}
