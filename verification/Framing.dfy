/** Runs of prefix-free entries: how the gossip messages lay out their sorted tables, and the one loop
    that reads them back. */
module Framing {
  import opened Bytes
  import opened Sorting

  datatype WireError = Truncated | WrongType | UnsupportedVersion | TooMany | NotCanonical | Malformed

  function Concat<T(!new)>(enc: T -> bytes, xs: seq<T>): bytes {
    if xs == [] then [] else enc(xs[0]) + Concat(enc, xs[1..])
  }

  lemma {:induction false} ConcatAppend<T(!new)>(enc: T -> bytes, xs: seq<T>, ys: seq<T>)
    ensures Concat(enc, xs + ys) == Concat(enc, xs) + Concat(enc, ys)
  {
    if xs == [] {
      assert xs + ys == ys;
    } else {
      ConcatAppend(enc, xs[1..], ys);
      assert (xs + ys)[1..] == xs[1..] + ys && (xs + ys)[0] == xs[0];
    }
  }

  lemma ConcatLast<T(!new)>(enc: T -> bytes, xs: seq<T>, y: T)
    ensures Concat(enc, xs + [y]) == Concat(enc, xs) + enc(y)
  {
    ConcatAppend(enc, xs, [y]);
    assert Concat(enc, [y]) == enc(y);
  }

  lemma ConcatSplits<T(!new)>(enc: T -> bytes, xs: seq<T>, i: nat)
    requires i < |xs|
    ensures Concat(enc, xs[..i]) + enc(xs[i]) <= Concat(enc, xs)
  {
    assert xs == xs[..i] + ([xs[i]] + xs[i + 1..]);
    ConcatAppend(enc, xs[..i], [xs[i]] + xs[i + 1..]);
    assert Concat(enc, [xs[i]] + xs[i + 1..]) == enc(xs[i]) + Concat(enc, xs[i + 1..]);
  }

  // Sorting does not change how much is written.
  lemma {:induction false} InsertKeepsSize<T(!new)>(enc: T -> bytes, less: (T, T) -> bool, s: seq<T>, x: T)
    ensures |Concat(enc, Insert(less, s, x))| == |Concat(enc, s)| + |enc(x)|
  {
    if s == [] {
      ConcatLast(enc, [], x);
    } else {
      var last := |s| - 1;
      assert s == s[..last] + [s[last]];
      InsertKeepsSize(enc, less, s[..last], x);
      ConcatLast(enc, s[..last], s[last]);
      ConcatLast(enc, Insert(less, s[..last], x), s[last]);
      ConcatLast(enc, s, x);
    }
  }

  lemma {:induction false} SortedKeepsSize<T(!new)>(enc: T -> bytes, less: (T, T) -> bool, s: seq<T>)
    ensures |Concat(enc, Sorted(less, s))| == |Concat(enc, s)|
  {
    if s != [] {
      var last := |s| - 1;
      SortedKeepsSize(enc, less, s[..last]);
      InsertKeepsSize(enc, less, Sorted(less, s[..last]), s[last]);
      assert s == s[..last] + [s[last]];
      ConcatLast(enc, s[..last], s[last]);
    }
  }

  datatype Entry<T> = Entry(value: T, length: nat)

  type Reader<!T> = bytes -> Result<Entry<T>, WireError>

  // The reader accepts exactly what the writer writes, whatever follows it.
  ghost predicate Inverts<T(!new)>(read: Reader<T>, enc: T -> bytes, ok: T -> bool) {
    && (forall s: bytes, x: T :: ok(x) && enc(x) <= s ==> read(s) == Ok(Entry(x, |enc(x)|)))
    && (forall s: bytes :: read(s).Ok? ==>
          ok(read(s).value.value) && enc(read(s).value.value) <= s
            && read(s).value.length == |enc(read(s).value.value)|)
    && (forall s: bytes :: read(s).Err? ==> read(s).error != UnsupportedVersion)
  }

  ghost predicate IsRun<T(!new)>(xs: seq<T>, less: (T, T) -> bool, ok: T -> bool) {
    Ascending(less, xs) && forall i :: 0 <= i < |xs| ==> ok(xs[i])
  }

  lemma {:induction false} RunsArePrefixFree<T(!new)>(read: Reader<T>, enc: T -> bytes, ok: T -> bool,
                                                      xs: seq<T>, ys: seq<T>, b: bytes)
    requires Inverts(read, enc, ok) && |xs| == |ys| && Concat(enc, xs) <= b && Concat(enc, ys) <= b
    requires (forall i :: 0 <= i < |xs| ==> ok(xs[i])) && (forall i :: 0 <= i < |ys| ==> ok(ys[i]))
    ensures xs == ys
  {
    if xs != [] {
      assert enc(xs[0]) <= b && enc(ys[0]) <= b;
      assert read(b) == Ok(Entry(xs[0], |enc(xs[0])|)) && read(b) == Ok(Entry(ys[0], |enc(ys[0])|));
      var n := |enc(xs[0])|;
      RunsArePrefixFree(read, enc, ok, xs[1..], ys[1..], b[n..]);
      assert xs == [xs[0]] + xs[1..] && ys == [ys[0]] + ys[1..];
    }
  }

  lemma AheadOf(head: bytes, next: bytes, whole: bytes, b: bytes, p: nat)
    requires head + next <= whole <= b && p <= |b| && b[..p] == head
    ensures next <= b[p..]
  {
    assert b[..p + |next|] == head + next;
    assert b[p..][..|next|] == b[..p + |next|][p..];
  }

  lemma NextEntryIsAhead<T(!new)>(enc: T -> bytes, xs: seq<T>, b: bytes, i: nat, p: nat)
    requires Concat(enc, xs) <= b && i < |xs| && p <= |b| && b[..p] == Concat(enc, xs[..i])
    ensures enc(xs[i]) <= b[p..]
  {
    hide Concat;
    ConcatSplits(enc, xs, i);
    AheadOf(b[..p], enc(xs[i]), Concat(enc, xs), b, p);
  }

  // Reads n strictly ascending entries from the front of b.
  method ReadRun<T(!new)>(read: Reader<T>, less: (T, T) -> bool, b: bytes, n: nat,
                          ghost enc: T -> bytes, ghost ok: T -> bool) returns (r: Result<Entry<seq<T>>, WireError>)
    requires Inverts(read, enc, ok)
    ensures r.Ok? ==>
              && |r.value.value| == n && IsRun(r.value.value, less, ok)
              && Concat(enc, r.value.value) <= b && r.value.length == |Concat(enc, r.value.value)|
    ensures r.Err? ==> r.error != UnsupportedVersion
    ensures r.Err? ==> forall xs: seq<T> :: |xs| == n && IsRun(xs, less, ok) ==> !(Concat(enc, xs) <= b)
  {
    hide Ascending, Concat, Inverts, IsRun;
    ghost var t: Option<seq<T>> := None;
    if xs: seq<T> :| |xs| == n && IsRun(xs, less, ok) && Concat(enc, xs) <= b {
      t := Some(xs);
    }
    var xs: seq<T> := [];
    var p: nat := 0;
    EmptyRun(enc, less, ok, xs);
    while |xs| < n
      invariant |xs| <= n && p <= |b| && b[..p] == Concat(enc, xs) && IsRun(xs, less, ok)
      invariant t.Some? ==> xs == t.value[..|xs|]
      decreases n - |xs|
    {
      var next := read(b[p..]);
      if t.Some? {
        ReadsTheNext(read, enc, less, ok, t.value, b, |xs|, p);
      }
      if next.Err? {
        ReaderErrors(read, enc, ok, b[p..]);
        return Err(next.error);
      }
      var x := next.value.value;
      if xs != [] && !less(xs[|xs| - 1], x) {
        return Err(NotCanonical);
      }
      ExtendsRun(read, enc, less, ok, xs, b, p, next.value);
      xs, p := xs + [x], p + next.value.length;
    }
    return Ok(Entry(xs, p));
  }

  lemma EmptyRun<T(!new)>(enc: T -> bytes, less: (T, T) -> bool, ok: T -> bool, xs: seq<T>)
    requires xs == []
    ensures IsRun(xs, less, ok) && Concat(enc, xs) == []
  {
  }

  lemma ReadsTheNext<T(!new)>(read: Reader<T>, enc: T -> bytes, less: (T, T) -> bool, ok: T -> bool,
                              xs: seq<T>, b: bytes, i: nat, p: nat)
    requires Inverts(read, enc, ok) && IsRun(xs, less, ok) && Concat(enc, xs) <= b
    requires i < |xs| && p <= |b| && b[..p] == Concat(enc, xs[..i])
    ensures read(b[p..]) == Ok(Entry(xs[i], |enc(xs[i])|))
    ensures xs[..i + 1] == xs[..i] + [xs[i]] && (i > 0 ==> less(xs[i - 1], xs[i]))
  {
    NextEntryIsAhead(enc, xs, b, i, p);
    if i > 0 {
      assert less(xs[i - 1], xs[i - 1 + 1]);
    }
  }

  lemma ReaderErrors<T(!new)>(read: Reader<T>, enc: T -> bytes, ok: T -> bool, s: bytes)
    requires Inverts(read, enc, ok) && read(s).Err?
    ensures read(s).error != UnsupportedVersion
  {
  }

  lemma ExtendsRun<T(!new)>(read: Reader<T>, enc: T -> bytes, less: (T, T) -> bool, ok: T -> bool,
                            xs: seq<T>, b: bytes, p: nat, next: Entry<T>)
    requires Inverts(read, enc, ok) && IsRun(xs, less, ok) && p <= |b| && b[..p] == Concat(enc, xs)
    requires read(b[p..]) == Ok(next) && (xs != [] ==> less(xs[|xs| - 1], next.value))
    ensures p + next.length <= |b| && b[..p + next.length] == Concat(enc, xs + [next.value])
    ensures IsRun(xs + [next.value], less, ok)
  {
    ConcatLast(enc, xs, next.value);
    assert enc(next.value) <= b[p..];
    assert b[..p + next.length] == b[..p] + b[p..][..next.length];
  }
}
