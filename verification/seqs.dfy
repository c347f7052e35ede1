/** Sequence helpers: `map` over a sequence, and the row slicing of the
    generator's outer loop, which steps a start index from 0 by the batch size
    and takes the rows from each start up to the next one (or the end). */
module Seqs {

  function Min(a: int, b: int): int
  {
    if a <= b then a else b
  }

  /** The concatenation of a sequence of slices. */
  function Flatten<T>(bs: seq<seq<T>>): seq<T>
  {
    if bs == [] then [] else bs[0] + Flatten(bs[1..])
  }

  /** The slices `xs[i:i+size]` for `i` in `range(start, len(xs), size)`.
      They are non-empty, at most `size` long, all but the last exactly
      `size` long, and together they give back `xs[start..]`: every element
      once, in order. */
  function SlicesFrom<T>(xs: seq<T>, size: nat, start: nat): (r: seq<seq<T>>)
    requires size >= 1
    requires start <= |xs|
    ensures Flatten(r) == xs[start..]
    ensures forall j :: 0 <= j < |r| ==> 1 <= |r[j]| <= size
    ensures forall j :: 0 <= j < |r| - 1 ==> |r[j]| == size
    decreases |xs| - start
  {
    if start == |xs| then []
    else
      var stop := Min(start + size, |xs|);
      var rest := SlicesFrom(xs, size, stop);
      assert Flatten([xs[start..stop]] + rest) == xs[start..stop] + Flatten(rest) by {
        assert ([xs[start..stop]] + rest)[1..] == rest;
      }
      assert xs[start..stop] + xs[stop..] == xs[start..];
      [xs[start..stop]] + rest
  }

  /** The batches `df[i:i+batch_size]` of the whole table. */
  function Batches<T>(xs: seq<T>, size: nat): (r: seq<seq<T>>)
    requires size >= 1
    ensures Flatten(r) == xs
    ensures forall j :: 0 <= j < |r| ==> 1 <= |r[j]| <= size
    ensures forall j :: 0 <= j < |r| - 1 ==> |r[j]| == size
  {
    SlicesFrom(xs, size, 0)
  }

  /** `[f(x) for x in xs]`. */
  function MapSeq<T, U>(f: T -> U, xs: seq<T>): (r: seq<U>)
    ensures |r| == |xs|
    ensures forall i :: 0 <= i < |xs| ==> r[i] == f(xs[i])
  {
    if xs == [] then [] else [f(xs[0])] + MapSeq(f, xs[1..])
  }

  /** Mapping distributes over concatenation. */
  lemma {:induction false} MapSeqAppend<T, U>(f: T -> U, a: seq<T>, b: seq<T>)
    ensures MapSeq(f, a + b) == MapSeq(f, a) + MapSeq(f, b)
  {
    if a == [] {
      assert a + b == b;
    } else {
      assert (a + b)[1..] == a[1..] + b;
      MapSeqAppend(f, a[1..], b);
    }
  }
}
