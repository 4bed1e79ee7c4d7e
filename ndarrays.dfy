/** A dense n-dimensional array of reals as numpy stores it: a shape and the
    elements in row-major (C) order, with numpy's rules for indexing by a
    tuple of integers. */
module NdArrays {

  datatype Option<T> = None | Some(value: T)

  /** Number of elements of an array of the given shape. */
  function Size(shape: seq<nat>): nat
    decreases |shape|
  {
    if |shape| == 0 then 1 else shape[0] * Size(shape[1..])
  }

  datatype NdArray = NdArray(shape: seq<nat>, data: seq<real>) {
    /** The element buffer holds exactly one value per index. */
    predicate Valid() {
      |data| == Size(shape)
    }
  }

  /** A full index whose every component lies in [0, shape[i]). */
  predicate InRange(shape: seq<nat>, idx: seq<int>) {
    |idx| == |shape| && forall i :: 0 <= i < |idx| ==> 0 <= idx[i] < shape[i]
  }

  /** A full index that numpy accepts: every component lies in
      [-shape[i], shape[i]); anything else raises IndexError. */
  predicate IsIndex(shape: seq<nat>, idx: seq<int>) {
    |idx| == |shape| && forall i :: 0 <= i < |idx| ==> -shape[i] <= idx[i] < shape[i]
  }

  /** numpy's reading of a negative component k as shape[i] + k. */
  function Normalize(shape: seq<nat>, idx: seq<int>): (r: seq<nat>)
    requires IsIndex(shape, idx)
    ensures InRange(shape, r)
    ensures forall i :: 0 <= i < |idx| && 0 <= idx[i] ==> r[i] == idx[i]
  {
    seq(|idx|, i requires 0 <= i < |idx| => if idx[i] < 0 then idx[i] + shape[i] else idx[i])
  }

  lemma MulAddBound(a: nat, b: nat, n: nat, s: nat)
    requires a < n && b < s
    ensures a * s + b < n * s
  {
    assert n * s == a * s + (n - a) * s;
    assert (n - a) * s == s + (n - a - 1) * s;
  }

  /** Position in the row-major element buffer of an in-range index. */
  function Offset(shape: seq<nat>, idx: seq<int>): (r: nat)
    requires InRange(shape, idx)
    ensures r < Size(shape)
    decreases |shape|
  {
    if |shape| == 0 then 0
    else
      assert InRange(shape[1..], idx[1..]);
      var rest := Offset(shape[1..], idx[1..]);
      MulAddBound(idx[0], rest, shape[0], Size(shape[1..]));
      idx[0] * Size(shape[1..]) + rest
  }

  lemma MulMonotone(a: int, b: int, s: nat)
    requires a <= b
    ensures a * s <= b * s
  {
    assert b * s - a * s == (b - a) * s;
  }

  lemma DivBound(p: nat, n: nat, s: nat)
    requires p < n * s
    ensures s > 0 && p / s < n && p % s < s && (p / s) * s + p % s == p
  {
    assert s == 0 ==> n * s == 0;
    var q := p / s;
    MulMonotone(n, if q < n then n else q, s);
  }

  lemma DivModOfSum(a: nat, b: nat, s: nat)
    requires b < s
    ensures (a * s + b) / s == a && (a * s + b) % s == b
  {
    var x := a * s + b;
    var q, r := x / s, x % s;
    assert x == q * s + r;
    assert (q - a) * s == b - r;
    MulMonotone(1, if q - a >= 1 then q - a else 1, s);
    MulMonotone(if q - a <= -1 then q - a else -1, -1, s);
  }

  /** Offset of an index split into its first component and the rest. */
  lemma OffsetCons(shape: seq<nat>, a: nat, rest: seq<nat>)
    requires |shape| > 0 && a < shape[0] && InRange(shape[1..], rest)
    ensures InRange(shape, [a] + rest)
    ensures Offset(shape, [a] + rest) == a * Size(shape[1..]) + Offset(shape[1..], rest)
  {
    assert ([a] + rest)[1..] == rest;
  }

  /** The index that numpy's nditer reports at position p of the row-major
      walk. */
  function MultiIndex(shape: seq<nat>, p: nat): (r: seq<nat>)
    requires p < Size(shape)
    ensures InRange(shape, r)
    decreases |shape|
  {
    if |shape| == 0 then []
    else
      var s := Size(shape[1..]);
      DivBound(p, shape[0], s);
      var rest := MultiIndex(shape[1..], p % s);
      OffsetCons(shape, p / s, rest);
      [p / s] + rest
  }

  /** The index nditer reports at position p is stored at position p. */
  lemma {:induction false} OffsetOfMultiIndex(shape: seq<nat>, p: nat)
    requires p < Size(shape)
    ensures Offset(shape, MultiIndex(shape, p)) == p
    decreases |shape|
  {
    if |shape| > 0 {
      var s := Size(shape[1..]);
      DivBound(p, shape[0], s);
      var q, rm := p / s, p % s;
      var rest := MultiIndex(shape[1..], rm);
      assert MultiIndex(shape, p) == [q] + rest;
      OffsetOfMultiIndex(shape[1..], rm);
      OffsetCons(shape, q, rest);
      assert Offset(shape, [q] + rest) == q * s + rm;
    }
  }

  /** Offset is injective: MultiIndex recovers the index from its position. */
  lemma {:induction false} MultiIndexOfOffset(shape: seq<nat>, idx: seq<int>)
    requires InRange(shape, idx)
    ensures MultiIndex(shape, Offset(shape, idx)) == idx
    decreases |shape|
  {
    if |shape| > 0 {
      assert InRange(shape[1..], idx[1..]);
      var s := Size(shape[1..]);
      var rest := Offset(shape[1..], idx[1..]);
      DivModOfSum(idx[0], rest, s);
      MultiIndexOfOffset(shape[1..], idx[1..]);
      assert idx == [idx[0]] + idx[1..];
    }
  }

  lemma OffsetInjective(shape: seq<nat>, a: seq<int>, b: seq<int>)
    requires InRange(shape, a) && InRange(shape, b)
    ensures Offset(shape, a) == Offset(shape, b) <==> a == b
  {
    if Offset(shape, a) == Offset(shape, b) {
      MultiIndexOfOffset(shape, a);
      MultiIndexOfOffset(shape, b);
    }
  }

  /** The element stored at an in-range index. */
  function At(a: NdArray, idx: seq<int>): real
    requires a.Valid() && InRange(a.shape, idx)
  {
    a.data[Offset(a.shape, idx)]
  }

  /** numpy's `a[tuple(idx)]` for an index with one component per axis:
      None stands for the IndexError numpy raises. */
  function Lookup(a: NdArray, idx: seq<int>): (r: Option<real>)
    requires a.Valid()
    ensures r.Some? <==> IsIndex(a.shape, idx)
    ensures r.Some? ==> r.value in a.data
  {
    if IsIndex(a.shape, idx) then Some(At(a, Normalize(a.shape, idx))) else None
  }

  /** An in-range index reads the element stored there. */
  lemma LookupInRange(a: NdArray, idx: seq<int>)
    requires a.Valid() && InRange(a.shape, idx)
    ensures Lookup(a, idx) == Some(At(a, idx))
  {
    assert Normalize(a.shape, idx) == idx;
  }

  /** A component k in [-n, 0) does not fail: it reads the element at n + k. */
  lemma LookupWraps(a: NdArray, idx: seq<int>, i: nat)
    requires a.Valid() && |idx| == |a.shape| && i < |idx|
    requires -a.shape[i] <= idx[i] < 0
    ensures Lookup(a, idx) == Lookup(a, idx[i := idx[i] + a.shape[i]])
  {
    var moved := idx[i := idx[i] + a.shape[i]];
    assert IsIndex(a.shape, idx) <==> IsIndex(a.shape, moved) by {
      forall j | 0 <= j < |idx| && j != i
        ensures idx[j] == moved[j]
      {
      }
    }
    if IsIndex(a.shape, idx) {
      assert Normalize(a.shape, idx) == Normalize(a.shape, moved);
    }
  }

  /** A component at or beyond n, or below -n, makes numpy raise. */
  lemma LookupOutOfBounds(a: NdArray, idx: seq<int>, i: nat)
    requires a.Valid() && i < |idx|
    requires i < |a.shape| ==> idx[i] >= a.shape[i] || idx[i] < -(a.shape[i] as int)
    ensures Lookup(a, idx) == None
  {
  }
}
