/**
 Tensors as a shape and flat row-major data. Narrowing and concatenation are defined on flat positions, through the
 multi-dimensional index each position stands for.
 */
module TensorSlices {
  import opened Arith
  import opened Wrappers

  /** `width` is the number of bytes of one element. */
  datatype Tensor<E> = Tensor(width: nat, shape: seq<nat>, data: seq<E>)

  // --- Row-major order -----------------------------------------------------------------------------------------------

  function Prod(shape: seq<nat>): nat {
    if shape == [] then 1 else shape[0] * Prod(shape[1..])
  }

  predicate InShape(shape: seq<nat>, idx: seq<nat>) {
    |idx| == |shape| && forall i :: 0 <= i < |shape| ==> idx[i] < shape[i]
  }

  function Flat(shape: seq<nat>, idx: seq<nat>): (k: nat)
    requires InShape(shape, idx)
    ensures k < Prod(shape)
  {
    if shape == [] then 0
    else
      var k := Flat(shape[1..], idx[1..]);
      RowFits(idx[0], shape[0], Prod(shape[1..]), k);
      idx[0] * Prod(shape[1..]) + k
  }

  lemma RowFits(i: nat, n: nat, w: nat, k: nat)
    requires i < n && k < w
    ensures 0 <= i * w && i * w + k < n * w
  {
    MulMonotone(i + 1, n, w);
    MulMonotone(0, i, w);
  }

  function Unflat(shape: seq<nat>, k: nat): (idx: seq<nat>)
    requires k < Prod(shape)
    ensures InShape(shape, idx)
  {
    if shape == [] then []
    else
      var w := Prod(shape[1..]);
      DivModBounds(k, shape[0], w);
      [k / w] + Unflat(shape[1..], k % w)
  }

  lemma DivModBounds(k: nat, n: nat, w: nat)
    requires k < n * w
    ensures w > 0 && 0 <= k / w < n && 0 <= k % w < w && k == k / w * w + k % w
  {
    assert w != 0 by {
      assert n * 0 == 0;
    }
    DivBounds(k, w);
    if k / w >= n {
      MulMonotone(n, k / w, w);
    }
  }

  lemma SplitRow(i: nat, w: nat, k: nat)
    requires k < w
    ensures (i * w + k) / w == i && (i * w + k) % w == k
  {
    assert (i + 1) * w == i * w + w;
    DivUnique(i * w + k, w, i);
  }

  lemma {:induction false} FlatUnflat(shape: seq<nat>, k: nat)
    requires k < Prod(shape)
    ensures Flat(shape, Unflat(shape, k)) == k
  {
    if shape != [] {
      var w := Prod(shape[1..]);
      DivModBounds(k, shape[0], w);
      FlatUnflat(shape[1..], k % w);
      assert Unflat(shape, k)[1..] == Unflat(shape[1..], k % w);
    }
  }

  lemma {:induction false} UnflatFlat(shape: seq<nat>, idx: seq<nat>)
    requires InShape(shape, idx)
    ensures Unflat(shape, Flat(shape, idx)) == idx
  {
    if shape != [] {
      var w := Prod(shape[1..]);
      var rest := Flat(shape[1..], idx[1..]);
      UnflatFlat(shape[1..], idx[1..]);
      RowFits(idx[0], shape[0], w, rest);
      SplitRow(idx[0], w, rest);
    }
  }

  // --- narrow(...).contiguous() --------------------------------------------------------------------------------------

  predicate Valid<E>(t: Tensor<E>) {
    |t.data| == Prod(t.shape)
  }

  lemma Shifted(shape: seq<nat>, d: nat, start: nat, len: nat, idx: seq<nat>)
    requires d < |shape| && start + len <= shape[d] && InShape(shape[d := len], idx)
    ensures InShape(shape, idx[d := idx[d] + start])
  {
    assert idx[d] < shape[d := len][d];
    forall i | 0 <= i < |shape|
      ensures idx[d := idx[d] + start][i] < shape[i]
    {
      assert idx[i] < shape[d := len][i];
    }
  }

  /** The position in the source of position k of the slice. */
  function SourceOf(shape: seq<nat>, d: nat, start: nat, len: nat, k: nat): (p: nat)
    requires d < |shape| && start + len <= shape[d] && k < Prod(shape[d := len])
    ensures p < Prod(shape)
  {
    var idx := Unflat(shape[d := len], k);
    Shifted(shape, d, start, len, idx);
    Flat(shape, idx[d := idx[d] + start])
  }

  function Narrow<E>(t: Tensor<E>, d: nat, start: nat, len: nat): (r: Tensor<E>)
    requires Valid(t) && d < |t.shape| && start + len <= t.shape[d]
    ensures Valid(r)
  {
    var shape := t.shape[d := len];
    Tensor(t.width, shape, seq(Prod(shape),
                               k requires 0 <= k < Prod(shape) => t.data[SourceOf(t.shape, d, start, len, k)]))
  }

  // --- cat -----------------------------------------------------------------------------------------------------------

  /** Total extent along d. */
  function Extent<E>(ts: seq<Tensor<E>>, d: nat): nat
    requires forall i :: 0 <= i < |ts| ==> d < |ts[i].shape|
  {
    if ts == [] then 0 else ts[0].shape[d] + Extent(ts[1..], d)
  }

  /** The piece that coordinate e along d falls into, and the coordinate inside it. */
  function Locate<E>(ts: seq<Tensor<E>>, d: nat, e: nat): (r: (nat, nat))
    requires forall i :: 0 <= i < |ts| ==> d < |ts[i].shape|
    requires e < Extent(ts, d)
    ensures r.0 < |ts| && r.1 < ts[r.0].shape[d]
  {
    if e < ts[0].shape[d] then (0, e)
    else
      var r := Locate(ts[1..], d, e - ts[0].shape[d]);
      (r.0 + 1, r.1)
  }

  /** Same element type, same shape but for the extent along d. */
  predicate Joinable<E>(ts: seq<Tensor<E>>, d: nat) {
    && |ts| > 0 && d < |ts[0].shape|
    && forall i :: 0 <= i < |ts| ==>
         && Valid(ts[i]) && ts[i].width == ts[0].width && |ts[i].shape| == |ts[0].shape|
         && ts[i].shape == ts[0].shape[d := ts[i].shape[d]]
  }

  function CatElement<E>(ts: seq<Tensor<E>>, d: nat, shape: seq<nat>, k: nat): E
    requires Joinable(ts, d) && shape == ts[0].shape[d := Extent(ts, d)] && k < Prod(shape)
  {
    var idx := Unflat(shape, k);
    assert idx[d] < shape[d];
    var at := Locate(ts, d, idx[d]);
    var local := idx[d := at.1];
    assert InShape(ts[at.0].shape, local) by {
      forall i | 0 <= i < |shape| ensures local[i] < ts[at.0].shape[i] {
        assert idx[i] < shape[i];
      }
    }
    ts[at.0].data[Flat(ts[at.0].shape, local)]
  }

  function Cat<E>(ts: seq<Tensor<E>>, d: nat): (r: Result<Tensor<E>>)
    ensures r.Ok? ==> Valid(r.value)
  {
    if !Joinable(ts, d) then Err("cannot concatenate")
    else
      var shape := ts[0].shape[d := Extent(ts, d)];
      Ok(Tensor(ts[0].width, shape, seq(Prod(shape), k requires 0 <= k < Prod(shape) => CatElement(ts, d, shape, k))))
  }

  // --- split_tensor --------------------------------------------------------------------------------------------------

  function Slice<E>(t: Tensor<E>, d: nat, tp: nat, rank: nat): (r: Tensor<E>)
    requires Valid(t) && d < |t.shape| && rank < tp && t.shape[d] % tp == 0
    ensures Valid(r)
  {
    var w := t.shape[d] / tp;
    SliceFits(t.shape[d], tp, rank);
    Narrow(t, d, rank * w, w)
  }

  lemma SliceFits(extent: nat, tp: nat, rank: nat)
    requires rank < tp && extent % tp == 0
    ensures extent / tp >= 0 && 0 <= rank * (extent / tp) && rank * (extent / tp) + extent / tp <= extent
    ensures extent == tp * (extent / tp)
  {
    var w := extent / tp;
    DivBounds(extent, tp);
    MulMonotone(rank + 1, tp, w);
    MulMonotone(0, rank, w);
  }

  function SplitTensor<E>(t: Tensor<E>, d: nat, tp: nat): (r: Result<seq<Tensor<E>>>)
    requires Valid(t)
    ensures r.Ok? <==> d < |t.shape| && tp > 0 && t.shape[d] % tp == 0
  {
    if d >= |t.shape| then Err("cannot split on that dimension")
    else if tp == 0 || t.shape[d] % tp != 0 then Err("not divisible")
    else Ok(seq(tp, rank requires 0 <= rank < tp => Slice(t, d, tp, rank)))
  }

  // --- What slicing preserves ----------------------------------------------------------------------------------------

  /** Slicing by multi-dimensional index: rank r's element at idx is the source's at idx shifted by r widths. */
  lemma SliceElement<E>(t: Tensor<E>, d: nat, tp: nat, rank: nat, idx: seq<nat>)
    requires Valid(t) && d < |t.shape| && rank < tp && t.shape[d] % tp == 0
    requires InShape(t.shape[d := t.shape[d] / tp], idx)
    ensures var w := t.shape[d] / tp;
            && rank * w >= 0 && InShape(t.shape, idx[d := idx[d] + rank * w])
            && Slice(t, d, tp, rank).data[Flat(t.shape[d := w], idx)]
               == t.data[Flat(t.shape, idx[d := idx[d] + rank * w])]
  {
    var w := t.shape[d] / tp;
    var start := rank * w;
    SliceElementAt(t, d, tp, rank, w, start, idx);
  }

  lemma SliceElementAt<E>(t: Tensor<E>, d: nat, tp: nat, rank: nat, w: nat, start: int, idx: seq<nat>)
    requires Valid(t) && d < |t.shape| && rank < tp && t.shape[d] % tp == 0
    requires w == t.shape[d] / tp && start == rank * w && InShape(t.shape[d := w], idx)
    ensures start >= 0 && InShape(t.shape, idx[d := idx[d] + start])
    ensures Slice(t, d, tp, rank).data[Flat(t.shape[d := w], idx)] == t.data[Flat(t.shape, idx[d := idx[d] + start])]
  {
    SliceFits(t.shape[d], tp, rank);
    NarrowElement(t, d, start, w, idx);
  }

  lemma NarrowElement<E>(t: Tensor<E>, d: nat, start: nat, len: nat, idx: seq<nat>)
    requires Valid(t) && d < |t.shape| && start + len <= t.shape[d] && InShape(t.shape[d := len], idx)
    ensures InShape(t.shape, idx[d := idx[d] + start])
    ensures Narrow(t, d, start, len).data[Flat(t.shape[d := len], idx)]
        == t.data[Flat(t.shape, idx[d := idx[d] + start])]
  {
    SourceAt(t.shape, d, start, len, t.shape[d := len], idx);
  }

  lemma SourceAt(shape: seq<nat>, d: nat, start: nat, len: nat, narrow: seq<nat>, idx: seq<nat>)
    requires d < |shape| && start + len <= shape[d] && narrow == shape[d := len] && InShape(narrow, idx)
    ensures InShape(shape, idx[d := idx[d] + start])
    ensures SourceOf(shape, d, start, len, Flat(narrow, idx)) == Flat(shape, idx[d := idx[d] + start])
  {
    Shifted(shape, d, start, len, idx);
    UnflatFlat(narrow, idx);
  }

  ghost predicate SameWidth<E>(ts: seq<Tensor<E>>, d: nat, w: nat) {
    forall i :: 0 <= i < |ts| ==> d < |ts[i].shape| && ts[i].shape[d] == w
  }

  lemma {:induction false} ExtentEven<E>(ts: seq<Tensor<E>>, d: nat, w: nat)
    requires SameWidth(ts, d, w)
    ensures Extent(ts, d) == |ts| * w
  {
    if ts != [] {
      ExtentEven(ts[1..], d, w);
      assert |ts| * w == w + (|ts| - 1) * w;
    }
  }

  lemma EvenStep(e: nat, w: nat)
    requires 0 < w <= e
    ensures e / w == (e - w) / w + 1 && e % w == (e - w) % w
  {
    DivBounds(e - w, w);
    DivUnique(e, w, (e - w) / w + 1);
  }

  lemma {:induction false} LocateEven<E>(ts: seq<Tensor<E>>, d: nat, w: nat, e: nat)
    requires SameWidth(ts, d, w) && e < Extent(ts, d)
    ensures w > 0 && Locate(ts, d, e) == (e / w, e % w)
  {
    assert w != 0 by {
      ExtentEven(ts, d, w);
    }
    if e < w {
      DivUnique(e, w, 0);
    } else {
      EvenStep(e, w);
      LocateEven(ts[1..], d, w, e - w);
    }
  }

  /** The slices of a tensor fit together. */
  lemma SlicesJoin<E>(t: Tensor<E>, d: nat, tp: nat, ts: seq<Tensor<E>>)
    requires Valid(t) && d < |t.shape| && tp > 0 && t.shape[d] % tp == 0
    requires |ts| == tp && forall r :: 0 <= r < tp ==> ts[r] == Slice(t, d, tp, r)
    ensures Joinable(ts, d) && SameWidth(ts, d, t.shape[d] / tp) && Extent(ts, d) == t.shape[d]
    ensures ts[0].width == t.width && ts[0].shape[d := Extent(ts, d)] == t.shape
  {
    var w := t.shape[d] / tp;
    assert forall r :: 0 <= r < tp ==> Slice(t, d, tp, r).shape == t.shape[d := w];
    ExtentEven(ts, d, w);
    SliceFits(t.shape[d], tp, 0);
  }

  /** The coordinates of idx inside the slice it falls into. */
  lemma Local(shape: seq<nat>, d: nat, w: nat, idx: seq<nat>)
    requires d < |shape| && w > 0 && InShape(shape, idx)
    ensures 0 <= idx[d] / w && 0 <= idx[d] % w < w && InShape(shape[d := w], idx[d := idx[d] % w])
    ensures var l := idx[d := idx[d] % w]; l[d := l[d] + idx[d] / w * w] == idx
  {
    DivBounds(idx[d], w);
    var local, narrow := idx[d := idx[d] % w], shape[d := w];
    forall i | 0 <= i < |shape|
      ensures local[i] < narrow[i]
    {
      assert idx[i] < shape[i];
    }
  }

  lemma RebuiltElement<E>(t: Tensor<E>, d: nat, tp: nat, ts: seq<Tensor<E>>, k: nat)
    requires Valid(t) && d < |t.shape| && tp > 0 && t.shape[d] % tp == 0 && k < Prod(t.shape)
    requires |ts| == tp && forall r :: 0 <= r < tp ==> ts[r] == Slice(t, d, tp, r)
    requires Joinable(ts, d) && ts[0].shape[d := Extent(ts, d)] == t.shape && SameWidth(ts, d, t.shape[d] / tp)
    ensures CatElement(ts, d, t.shape, k) == t.data[k]
  {
    var w := t.shape[d] / tp;
    var idx := Unflat(t.shape, k);
    assert idx[d] < t.shape[d] == Extent(ts, d);
    LocateEven(ts, d, w, idx[d]);
    Local(t.shape, d, w, idx);
    var rank, local := idx[d] / w, idx[d := idx[d] % w];
    assert ts[rank].shape == t.shape[d := w];
    assert CatElement(ts, d, t.shape, k) == ts[rank].data[Flat(t.shape[d := w], local)];
    BackInSource(t, d, tp, rank, idx, k);
  }

  lemma BackInSource<E>(t: Tensor<E>, d: nat, tp: nat, rank: nat, idx: seq<nat>, k: nat)
    requires Valid(t) && d < |t.shape| && rank < tp && t.shape[d] % tp == 0 && k < Prod(t.shape)
    requires idx == Unflat(t.shape, k) && t.shape[d] / tp > 0 && rank == idx[d] / (t.shape[d] / tp)
    ensures var w := t.shape[d] / tp;
            && idx[d] % w >= 0 && InShape(t.shape[d := w], idx[d := idx[d] % w])
            && Slice(t, d, tp, rank).data[Flat(t.shape[d := w], idx[d := idx[d] % w])] == t.data[k]
  {
    var w := t.shape[d] / tp;
    Local(t.shape, d, w, idx);
    SliceElement(t, d, tp, rank, idx[d := idx[d] % w]);
    FlatUnflat(t.shape, k);
  }

  /** Concatenating what split_tensor returns rebuilds the tensor. */
  lemma RoundTrip<E>(t: Tensor<E>, d: nat, tp: nat)
    requires Valid(t) && SplitTensor(t, d, tp).Ok?
    ensures Cat(SplitTensor(t, d, tp).value, d) == Ok(t)
  {
    var ts := SplitTensor(t, d, tp).value;
    SlicesJoin(t, d, tp, ts);
    forall k | 0 <= k < Prod(t.shape)
      ensures CatElement(ts, d, t.shape, k) == t.data[k]
    {
      RebuiltElement(t, d, tp, ts, k);
    }
    assert Cat(ts, d).value.data == t.data;
  }

  // --- What concatenation determines ---------------------------------------------------------------------------------

  lemma LocateMoved<E>(ts: seq<Tensor<E>>, d: nat, w: nat, rank: nat, start: nat, e: nat)
    requires SameWidth(ts, d, w) && start == rank * w && e < w && e + start < Extent(ts, d)
    ensures Locate(ts, d, e + start) == (rank, e)
  {
    DivUnique(e + start, w, rank);
    LocateEven(ts, d, w, e + start);
  }

  /** Where an element of piece `rank` ends up. */
  lemma JoinedElement<E>(ts: seq<Tensor<E>>, d: nat, w: nat, shape: seq<nat>, rank: nat, start: nat, idx: seq<nat>)
    requires Joinable(ts, d) && SameWidth(ts, d, w) && shape == ts[0].shape[d := Extent(ts, d)]
    requires rank < |ts| && start == rank * w && ts[rank].shape == shape[d := w]
    requires InShape(shape[d := w], idx) && InShape(shape, idx[d := idx[d] + start])
    ensures CatElement(ts, d, shape, Flat(shape, idx[d := idx[d] + start])) == ts[rank].data[Flat(shape[d := w], idx)]
  {
    var moved := idx[d := idx[d] + start];
    UnflatFlat(shape, moved);
    assert idx[d] < shape[d := w][d] && moved[d] < shape[d];
    LocateMoved(ts, d, w, rank, start, idx[d]);
    assert moved[d := idx[d]] == idx;
  }

  lemma JoinedShape<E>(ts: seq<Tensor<E>>, d: nat, w: nat, t: Tensor<E>, rank: nat)
    requires Cat(ts, d) == Ok(t) && SameWidth(ts, d, w) && rank < |ts|
    ensures t.shape[d] % |ts| == 0 && t.shape[d] / |ts| == w && ts[rank].shape == t.shape[d := w]
  {
    ExtentEven(ts, d, w);
    assert t.shape[d] == w * |ts|;
    DivUnique(t.shape[d], |ts|, w);
  }

  lemma JoinedAt<E>(ts: seq<Tensor<E>>, d: nat, w: nat, t: Tensor<E>, rank: nat, start: nat, k: nat)
    requires Cat(ts, d) == Ok(t) && SameWidth(ts, d, w) && rank < |ts| && k < Prod(t.shape[d := w])
    requires start == rank * w && start + w <= t.shape[d] && ts[rank].shape == t.shape[d := w]
    ensures Narrow(t, d, start, w).data[k] == ts[rank].data[k]
  {
    var narrow := t.shape[d := w];
    var idx := Unflat(narrow, k);
    FlatUnflat(narrow, k);
    NarrowElement(t, d, start, w, idx);
    JoinedElement(ts, d, w, t.shape, rank, start, idx);
  }

  lemma JoinedSlice<E>(ts: seq<Tensor<E>>, d: nat, w: nat, t: Tensor<E>, rank: nat)
    requires Cat(ts, d) == Ok(t) && SameWidth(ts, d, w) && rank < |ts|
    ensures t.shape[d] % |ts| == 0 && Slice(t, d, |ts|, rank) == ts[rank]
  {
    JoinedShape(ts, d, w, t, rank);
    SliceFits(t.shape[d], |ts|, rank);
    var start := rank * w;
    forall k | 0 <= k < Prod(t.shape[d := w])
      ensures Narrow(t, d, start, w).data[k] == ts[rank].data[k]
    {
      JoinedAt(ts, d, w, t, rank, start, k);
    }
    assert Narrow(t, d, start, w).data == ts[rank].data;
  }

  /** Pieces that concatenate to a tensor are its slices exactly if they all have the same extent. */
  lemma SplitIff<E>(ts: seq<Tensor<E>>, d: nat, t: Tensor<E>)
    requires Cat(ts, d) == Ok(t)
    ensures SplitTensor(t, d, |ts|) == Ok(ts) <==> SameWidth(ts, d, ts[0].shape[d])
  {
    if SplitTensor(t, d, |ts|) == Ok(ts) {
      SlicesJoin(t, d, |ts|, ts);
    }
    if SameWidth(ts, d, ts[0].shape[d]) {
      forall rank | 0 <= rank < |ts|
        ensures t.shape[d] % |ts| == 0 && Slice(t, d, |ts|, rank) == ts[rank]
      {
        JoinedSlice(ts, d, ts[0].shape[d], t, rank);
      }
      JoinedSlice(ts, d, ts[0].shape[d], t, 0);
      assert SplitTensor(t, d, |ts|).value == ts;
    }
  }

  /** Pieces of extent 1 and 3 concatenate to a tensor whose slices have extent 2. */
  lemma UnevenPieces<E>(a: E)
    ensures var ts := [Tensor(1, [1], [a]), Tensor(1, [3], [a, a, a])];
            Cat(ts, 0).Ok? && SplitTensor(Cat(ts, 0).value, 0, 2) != Ok(ts)
  {
    var ts := [Tensor(1, [1], [a]), Tensor(1, [3], [a, a, a])];
    assert Prod([1]) == 1 && Prod([3]) == 3;
    assert Joinable(ts, 0);
    SplitIff(ts, 0, Cat(ts, 0).value);
    assert ts[1].shape[0] != ts[0].shape[0];
  }

  /** Position k of rank's slice holds the source's element at position p. */
  ghost predicate Holds(shape: seq<nat>, d: nat, tp: nat, rank: nat, k: nat, p: nat)
    requires d < |shape| && tp > 0 && shape[d] % tp == 0
  {
    var w := shape[d] / tp;
    rank < tp && 0 <= w && 0 <= rank * w && rank * w + w <= shape[d] && k < Prod(shape[d := w])
        && SourceOf(shape, d, rank * w, w, k) == p
  }

  /** Every source element lands in some rank's slice ... */
  lemma SomeSlice(shape: seq<nat>, d: nat, tp: nat, p: nat) returns (rank: nat, k: nat)
    requires d < |shape| && tp > 0 && shape[d] % tp == 0 && p < Prod(shape)
    ensures Holds(shape, d, tp, rank, k, p)
  {
    var w := shape[d] / tp;
    var idx := Unflat(shape, p);
    assert idx[d] < shape[d];
    SliceFits(shape[d], tp, 0);
    DivModBounds(idx[d], tp, w);
    rank := idx[d] / w;
    SliceFits(shape[d], tp, rank);
    Local(shape, d, w, idx);
    var local := idx[d := idx[d] % w];
    k := Flat(shape[d := w], local);
    UnflatFlat(shape[d := w], local);
    FlatUnflat(shape, p);
  }

  lemma SourceIndex(shape: seq<nat>, d: nat, start: nat, len: nat, k: nat)
    requires d < |shape| && start + len <= shape[d] && k < Prod(shape[d := len])
    ensures var i := Unflat(shape[d := len], k);
            && |i| == |shape| && i[d] < len && Flat(shape[d := len], i) == k
            && Unflat(shape, SourceOf(shape, d, start, len, k)) == i[d := i[d] + start]
  {
    var narrow := shape[d := len];
    var i := Unflat(narrow, k);
    assert i[d] < narrow[d];
    FlatUnflat(narrow, k);
    Shifted(shape, d, start, len, i);
    UnflatFlat(shape, i[d := i[d] + start]);
  }

  /** ... and in only one place. */
  lemma OneSlice(shape: seq<nat>, d: nat, tp: nat, p: nat, rank: nat, k: nat, rank': nat, k': nat)
    requires d < |shape| && tp > 0 && shape[d] % tp == 0
    requires Holds(shape, d, tp, rank, k, p) && Holds(shape, d, tp, rank', k', p)
    ensures rank == rank' && k == k'
  {
    var w := shape[d] / tp;
    var e, e' := OneStart(shape, d, w, rank * w, rank' * w, k, k');
    FlatUnique(rank, e, rank', e', w);
    SameStart(shape, d, w, rank * w, k, k');
  }

  lemma OneStart(shape: seq<nat>, d: nat, w: nat, a: nat, b: nat, k: nat, k': nat) returns (e: nat, e': nat)
    requires d < |shape| && a + w <= shape[d] && b + w <= shape[d] && k < Prod(shape[d := w])
        && k' < Prod(shape[d := w])
    requires SourceOf(shape, d, a, w, k) == SourceOf(shape, d, b, w, k')
    ensures e < w && e' < w && a + e == b + e'
  {
    SourceIndex(shape, d, a, w, k);
    SourceIndex(shape, d, b, w, k');
    e, e' := Unflat(shape[d := w], k)[d], Unflat(shape[d := w], k')[d];
    var j := Unflat(shape, SourceOf(shape, d, a, w, k));
    assert j[d] == e + a && j[d] == e' + b;
  }

  lemma SameStart(shape: seq<nat>, d: nat, w: nat, a: nat, k: nat, k': nat)
    requires d < |shape| && a + w <= shape[d] && k < Prod(shape[d := w]) && k' < Prod(shape[d := w])
    requires SourceOf(shape, d, a, w, k) == SourceOf(shape, d, a, w, k')
    ensures k == k'
  {
    SourceIndex(shape, d, a, w, k);
    SourceIndex(shape, d, a, w, k');
    var i, i' := Unflat(shape[d := w], k), Unflat(shape[d := w], k');
    var j, j' := i[d := i[d] + a], i'[d := i'[d] + a];
    assert j == j';
    forall n | 0 <= n < |i|
      ensures i[n] == i'[n]
    {
      assert j[n] == j'[n];
    }
    assert i == i';
  }

  // --- Sizes ---------------------------------------------------------------------------------------------------------

  function Bytes<E>(t: Tensor<E>): nat {
    |t.data| * t.width
  }

  lemma Regroup(a: nat, n: nat, b: nat)
    ensures a * (n * b) == n * (a * b) && (n * a) * b == n * (a * b)
  {
  }

  lemma {:induction false} ProdScaled(shape: seq<nat>, d: nat, w: nat, n: nat)
    requires d < |shape| && shape[d] == n * w
    ensures Prod(shape) == n * Prod(shape[d := w])
  {
    if d == 0 {
      assert shape[d := w][1..] == shape[1..];
      Regroup(w, n, Prod(shape[1..]));
    } else {
      ProdScaled(shape[1..], d - 1, w, n);
      assert shape[d := w][1..] == shape[1..][d - 1 := w];
      Regroup(shape[0], n, Prod(shape[1..][d - 1 := w]));
    }
  }

  /** Each rank's slice takes its share of the bytes. */
  lemma SliceBytes<E>(t: Tensor<E>, d: nat, tp: nat, rank: nat)
    requires Valid(t) && d < |t.shape| && rank < tp && t.shape[d] % tp == 0
    ensures tp * Bytes(Slice(t, d, tp, rank)) == Bytes(t)
  {
    var w := t.shape[d] / tp;
    SliceFits(t.shape[d], tp, rank);
    ProdScaled(t.shape, d, w, tp);
    Regroup(Prod(t.shape[d := w]), tp, t.width);
  }
}
