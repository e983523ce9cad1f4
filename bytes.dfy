/** Byte sequences, windows into them and in-place placement of a chunk:
    the small vocabulary every component of the JSON handlers shares. */
module Bytes {

  newtype byte = b: int | 0 <= b < 256

  datatype Option<+T> = None | Some(value: T)

  function Min(a: nat, b: nat): (m: nat) { if a <= b then a else b }

  /** The flat concatenation of a list of chunks. */
  function Flatten(parts: seq<seq<byte>>): (r: seq<byte>)
  {
    if parts == [] then [] else parts[0] + Flatten(parts[1..])
  }

  lemma {:induction false} FlattenAppend(a: seq<seq<byte>>, b: seq<seq<byte>>)
    ensures Flatten(a + b) == Flatten(a) + Flatten(b)
  {
    if a != [] {
      assert (a + b)[1..] == a[1..] + b;
      FlattenAppend(a[1..], b);
    } else {
      assert a + b == b;
    }
  }

  /** The bytes of `s` from `from` on, at most `size` of them. */
  function Window(s: seq<byte>, from: nat, size: nat): (r: seq<byte>)
    requires from <= |s|
  {
    s[from..from + Min(size, |s| - from)]
  }

  /** Successive windows of `size` bytes from `from` to the end of `s`: what a
      reader that advances by the length of each window it gets is handed. */
  function Slices(s: seq<byte>, from: nat, size: nat): (r: seq<seq<byte>>)
    requires from <= |s| && size > 0
    decreases |s| - from
  {
    if from == |s| then []
    else
      var w := Window(s, from, size);
      [w] + Slices(s, from + |w|, size)
  }

  /** ceil(n / d), counted out by repeated subtraction. */
  function CeilDiv(n: nat, d: nat): (k: nat)
    requires d > 0
    decreases n
  {
    if n == 0 then 0 else if n <= d then 1 else 1 + CeilDiv(n - d, d)
  }

  /** CeilDiv(n, d) is the least count of d-sized pieces that cover n. */
  lemma {:induction false} CeilDivIsCeiling(n: nat, d: nat)
    requires d > 0
    ensures n <= CeilDiv(n, d) * d < n + d
    decreases n
  {
    if n > d {
      CeilDivIsCeiling(n - d, d);
      assert CeilDiv(n, d) * d == CeilDiv(n - d, d) * d + d;
    }
  }

  /** The slices, read back to back, are the rest of `s` from `from` on. */
  lemma {:induction false} SlicesFlatten(s: seq<byte>, from: nat, size: nat)
    requires from <= |s| && size > 0
    ensures Flatten(Slices(s, from, size)) == s[from..]
    decreases |s| - from
  {
    if from < |s| {
      var w := Window(s, from, size);
      SlicesFlatten(s, from + |w|, size);
      assert s[from..] == w + s[from + |w|..];
    }
  }

  /** There are ceil((|s| - from) / size) slices. */
  lemma {:induction false} SlicesCount(s: seq<byte>, from: nat, size: nat)
    requires from <= |s| && size > 0
    ensures |Slices(s, from, size)| == CeilDiv(|s| - from, size)
    decreases |s| - from
  {
    if from < |s| {
      var w := Window(s, from, size);
      SlicesCount(s, from + |w|, size);
    }
  }

  /** Each slice is non-empty and all but the last are exactly `size` bytes long. */
  lemma {:induction false} SlicesShape(s: seq<byte>, from: nat, size: nat)
    requires from <= |s| && size > 0
    ensures forall i :: 0 <= i < |Slices(s, from, size)| ==> 0 < |Slices(s, from, size)[i]| <= size
    ensures forall i :: 0 <= i < |Slices(s, from, size)| - 1 ==> |Slices(s, from, size)[i]| == size
    decreases |s| - from
  {
    if from < |s| {
      var w := Window(s, from, size);
      SlicesShape(s, from + |w|, size);
      var rest := Slices(s, from + |w|, size);
      assert Slices(s, from, size) == [w] + rest;
      if |w| < size {
        assert from + |w| == |s|;
        assert rest == [];
      }
    }
  }

  /** `b` with the bytes at `at .. at + |x|` replaced by `x`: what a bounded
      memcpy of `x` to offset `at` leaves in a buffer that held `b`. */
  function Place(b: seq<byte>, at: nat, x: seq<byte>): (r: seq<byte>)
    requires at + |x| <= |b|
    ensures |r| == |b|
    ensures forall k :: 0 <= k < |r| ==> r[k] == if at <= k < at + |x| then x[k - at] else b[k]
  {
    b[..at] + x + b[at + |x|..]
  }

  /** Two placements that both fit and whose windows do not overlap commute. */
  lemma PlaceDisjointCommute(b: seq<byte>, i: nat, x: seq<byte>, j: nat, y: seq<byte>)
    requires i + |x| <= |b| && j + |y| <= |b|
    requires i + |x| <= j || j + |y| <= i
    ensures Place(Place(b, i, x), j, y) == Place(Place(b, j, y), i, x)
  {
    var l, r := Place(Place(b, i, x), j, y), Place(Place(b, j, y), i, x);
    assert |l| == |r|;
    forall k | 0 <= k < |l| ensures l[k] == r[k] {}
  }

  /** Placing `x` and then `y` right behind it is placing `x + y` at once. */
  lemma PlaceConsecutive(b: seq<byte>, at: nat, x: seq<byte>, y: seq<byte>)
    requires at + |x| + |y| <= |b|
    ensures Place(Place(b, at, x), at + |x|, y) == Place(b, at, x + y)
  {
    var l, r := Place(Place(b, at, x), at + |x|, y), Place(b, at, x + y);
    forall k | 0 <= k < |l| ensures l[k] == r[k] {}
  }

  /** A body chunk as the transport hands it over: its offset in the body and its bytes. */
  datatype Chunk = Chunk(index: nat, data: seq<byte>)

  predicate Covers(c: Chunk, k: nat) { c.index <= k < c.index + |c.data| }

  predicate FitIn(cs: seq<Chunk>, size: nat)
  {
    forall i :: 0 <= i < |cs| ==> cs[i].index + |cs[i].data| <= size
  }

  predicate Disjoint(cs: seq<Chunk>)
  {
    forall i, j :: 0 <= i < j < |cs| ==>
      cs[i].index + |cs[i].data| <= cs[j].index || cs[j].index + |cs[j].data| <= cs[i].index
  }

  /** The buffer after each chunk of `cs`, in that order, was placed into `b`. */
  function PlaceAll(b: seq<byte>, cs: seq<Chunk>): (r: seq<byte>)
    requires FitIn(cs, |b|)
    ensures |r| == |b|
  {
    if cs == [] then b
    else
      var last := cs[|cs| - 1];
      Place(PlaceAll(b, cs[..|cs| - 1]), last.index, last.data)
  }

  /** Dropping the last chunk keeps the chunks fitting and disjoint. */
  lemma DropLastKeeps(cs: seq<Chunk>, size: nat)
    requires cs != [] && FitIn(cs, size) && Disjoint(cs)
    ensures FitIn(cs[..|cs| - 1], size) && Disjoint(cs[..|cs| - 1])
    ensures forall i :: 0 <= i < |cs| - 1 ==> cs[..|cs| - 1][i] == cs[i]
  {
    var init := cs[..|cs| - 1];
    forall i | 0 <= i < |init| ensures init[i] == cs[i] {}
  }

  /** Among disjoint chunks, one that covers `k` is the only one that does. */
  lemma OnlyCover(cs: seq<Chunk>, j: nat, k: nat)
    requires Disjoint(cs) && j < |cs| && Covers(cs[j], k)
    ensures forall i :: 0 <= i < |cs| && i != j ==> !Covers(cs[i], k)
  {
    forall i | 0 <= i < |cs| && i != j ensures !Covers(cs[i], k) {
      if i < j {
        assert cs[i].index + |cs[i].data| <= cs[j].index || cs[j].index + |cs[j].data| <= cs[i].index;
      } else {
        assert cs[j].index + |cs[j].data| <= cs[i].index || cs[i].index + |cs[i].data| <= cs[j].index;
      }
    }
  }

  /** What one byte of the result is: that of the chunk covering it, else the original. */
  lemma {:induction false} PlaceAllAt(b: seq<byte>, cs: seq<Chunk>, k: nat)
    requires FitIn(cs, |b|) && Disjoint(cs) && k < |b|
    ensures forall i :: 0 <= i < |cs| && Covers(cs[i], k) ==>
              PlaceAll(b, cs)[k] == cs[i].data[k - cs[i].index]
    ensures (forall i :: 0 <= i < |cs| ==> !Covers(cs[i], k)) ==> PlaceAll(b, cs)[k] == b[k]
  {
    if cs != [] {
      var n := |cs| - 1;
      var last := cs[n];
      DropLastKeeps(cs, |b|);
      PlaceAllAt(b, cs[..n], k);
      var p := PlaceAll(b, cs[..n]);
      assert PlaceAll(b, cs) == Place(p, last.index, last.data);
      if Covers(last, k) {
        OnlyCover(cs, n, k);
      }
    }
  }

  /** The order in which disjoint chunks arrive does not matter: two orderings
      of the same chunks leave the same buffer. */
  lemma PlacementOrderIrrelevant(b: seq<byte>, cs: seq<Chunk>, ds: seq<Chunk>)
    requires FitIn(cs, |b|) && Disjoint(cs)
    requires FitIn(ds, |b|) && Disjoint(ds)
    requires multiset(cs) == multiset(ds)
    ensures PlaceAll(b, cs) == PlaceAll(b, ds)
  {
    var l, r := PlaceAll(b, cs), PlaceAll(b, ds);
    forall k | 0 <= k < |b| ensures l[k] == r[k] {
      PlaceAllAt(b, cs, k);
      PlaceAllAt(b, ds, k);
      if i :| 0 <= i < |cs| && Covers(cs[i], k) {
        assert cs[i] in multiset(ds);
      } else if j :| 0 <= j < |ds| && Covers(ds[j], k) {
        assert ds[j] in multiset(cs);
      }
    }
  }

  /** Placing consecutive chunks from offset `at` on writes their concatenation there. */
  lemma {:induction false} PlaceAllConsecutive(b: seq<byte>, parts: seq<seq<byte>>, at: nat)
    requires at + |Flatten(parts)| <= |b|
    ensures PlaceSequential(b, parts, at) == Place(b, at, Flatten(parts))
    decreases |parts|
  {
    if parts != [] {
      FlattenLength(parts);
      var b1 := Place(b, at, parts[0]);
      PlaceAllConsecutive(b1, parts[1..], at + |parts[0]|);
      PlaceConsecutive(b, at, parts[0], Flatten(parts[1..]));
    } else {
      assert Place(b, at, []) == b;
    }
  }

  lemma {:induction false} FlattenLength(parts: seq<seq<byte>>)
    requires parts != []
    ensures |Flatten(parts)| == |parts[0]| + |Flatten(parts[1..])|
  {
  }

  /** Consecutive chunks placed in order, the first at `at`, each right behind the previous. */
  function PlaceSequential(b: seq<byte>, parts: seq<seq<byte>>, at: nat): (r: seq<byte>)
    requires at + |Flatten(parts)| <= |b|
    ensures |r| == |b|
    decreases |parts|
  {
    if parts == [] then b
    else
      FlattenLength(parts);
      PlaceSequential(Place(b, at, parts[0]), parts[1..], at + |parts[0]|)
  }

  /** memcpy(dst + at, src, |src|), for a destination that has room for it. */
  method CopyInto(dst: array<byte>, at: nat, src: seq<byte>)
    requires at + |src| <= dst.Length
    modifies dst
    ensures dst[..] == Place(old(dst[..]), at, src)
  {
    var i := 0;
    while i < |src|
      invariant 0 <= i <= |src|
      invariant forall k :: 0 <= k < dst.Length ==>
                  dst[k] == if at <= k < at + i then src[k - at] else old(dst[k])
    {
      dst[at + i] := src[i];
      i := i + 1;
    }
    assert dst[..] == Place(old(dst[..]), at, src);
  }
}
