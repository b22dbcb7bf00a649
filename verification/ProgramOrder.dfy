/**
 The (batch, dim) programs of a launch run in no particular order. When no program stores into a slot that another one
 loads or stores, every order leaves the same memory.
 */
module ProgramOrder {
  import opened Arith
  import opened CommutingSteps
  import opened ChunkMetadata
  import opened Recurrence
  import opened ScanKernel

  /** A program of the grid, with the number of tokens already computed for its request. */
  datatype Prog = Prog(b: nat, d: nat, computed: nat)

  /** Lengths of the delta and z buffers and of the state cache. */
  datatype Shape = Shape(elems: nat, zElems: nat, entries: nat)

  ghost function ShapeOf<M, V>(m: Mem<M, V>): Shape {
    Shape(|m.delta|, |m.z|, |m.ssm|)
  }

  ghost predicate Sized<T>(a: Launch<T>, p: Prog, sh: Shape) {
    InBounds(a, p.b, p.d, p.computed, sh.elems, sh.zElems, sh.entries)
  }

  /** Element `i` of the delta buffer belongs to the program. */
  ghost predicate Owns<T>(a: Launch<T>, p: Prog, i: int)
    requires InBatch(a, p.b)
  {
    !Skipped(a, p.b) && Base(a, p.b, p.d) <= i < Base(a, p.b, p.d) + SeqLen(a, p.b)
  }

  /** Element `i` of the z buffer does. */
  ghost predicate OwnsZ<T>(a: Launch<T>, p: Prog, i: int)
    requires InBatch(a, p.b)
  {
    !Skipped(a, p.b) && a.hasZ && ZBase(a, p.b, p.d) <= i < ZBase(a, p.b, p.d) + SeqLen(a, p.b)
  }

  ghost predicate Loads<T>(a: Launch<T>, p: Prog, x: int)
    requires InBatch(a, p.b)
  {
    !Skipped(a, p.b) && HasInit(a, p.b) && x == SlotAddr(a, p.d, LoadSlot(a, p.b))
  }

  ghost predicate Stores<T>(a: Launch<T>, p: Prog, x: int)
    requires InBatch(a, p.b)
    requires !Skipped(a, p.b) && a.cacheEnabled ==> Planned(a, p.b, p.computed)
  {
    && !Skipped(a, p.b)
    && if a.cacheEnabled
       then exists blk ::
         a.blockIdxFirst[p.b] <= blk <= a.blockIdxLast[p.b] && x == SlotAddr(a, p.d, a.cacheIndices[p.b][blk])
       else x == SlotAddr(a, p.d, LoadSlot(a, p.b))
  }

  ghost predicate Independent<T>(a: Launch<T>, p: Prog, q: Prog, sh: Shape)
    requires Sized(a, p, sh) && Sized(a, q, sh)
  {
    && (forall i :: !(Owns(a, p, i) && Owns(a, q, i))) && (forall i :: !(OwnsZ(a, p, i) && OwnsZ(a, q, i)))
    && (forall x :: !(Stores(a, p, x) && Stores(a, q, x)))
    && (forall x :: !(Stores(a, p, x) && Loads(a, q, x)))
    && (forall x :: !(Loads(a, p, x) && Stores(a, q, x)))
  }

  ghost function Step<S, M, T, V>(k: Kernel<S, M, T, V>, a: Launch<T>, p: Prog, m: Mem<M, V>): (r: Mem<M, V>)
    requires Sized(a, p, ShapeOf(m))
    ensures ShapeOf(r) == ShapeOf(m)
  {
    Exec(k, a, p.b, p.d, p.computed, m)
  }

  /** A program's effect once its inputs are read: outputs from `at` on, gated ones from `zAt` on and a map of stored
      states. */
  datatype Effect<!M, !V> = Effect(at: nat, outs: seq<V>, zAt: nat, gates: seq<V>, stores: map<int, M>)

  ghost predicate EffectFits<M, V>(e: Effect<M, V>, sh: Shape) {
    && e.at + |e.outs| <= sh.elems && e.zAt + |e.gates| <= sh.zElems
    && forall x :: x in e.stores ==> 0 <= x < sh.entries
  }

  ghost function Apply<M, V>(e: Effect<M, V>, m: Mem<M, V>): (r: Mem<M, V>)
    requires EffectFits(e, ShapeOf(m))
    ensures ShapeOf(r) == ShapeOf(m)
  {
    Mem(Paste(m.delta, e.at, e.outs), Paste(m.z, e.zAt, e.gates), Overlay(m.ssm, e.stores))
  }

  ghost function Overlay<M>(ssm: seq<M>, stores: map<int, M>): (r: seq<M>)
    ensures |r| == |ssm|
    ensures forall x :: 0 <= x < |r| ==> r[x] == if x in stores then stores[x] else ssm[x]
  {
    seq(|ssm|, x requires 0 <= x < |ssm| => if x in stores then stores[x] else ssm[x])
  }

  ghost predicate Covers<M, V>(e: Effect<M, V>, i: int) {
    e.at <= i < e.at + |e.outs|
  }

  ghost predicate CoversZ<M, V>(e: Effect<M, V>, i: int) {
    e.zAt <= i < e.zAt + |e.gates|
  }

  ghost predicate Apart<M, V>(e: Effect<M, V>, f: Effect<M, V>) {
    && (forall i :: !(Covers(e, i) && Covers(f, i))) && (forall i :: !(CoversZ(e, i) && CoversZ(f, i)))
    && e.stores.Keys !! f.stores.Keys
  }

  lemma PasteCommutes<V>(s: seq<V>, i: nat, x: seq<V>, j: nat, y: seq<V>)
    requires i + |x| <= |s| && j + |y| <= |s|
    requires i + |x| <= j || j + |y| <= i || x == [] || y == []
    ensures Paste(Paste(s, j, y), i, x) == Paste(Paste(s, i, x), j, y)
  {
  }

  lemma ApartRanges<M, V>(e: Effect<M, V>, f: Effect<M, V>)
    requires Apart(e, f)
    ensures e.at + |e.outs| <= f.at || f.at + |f.outs| <= e.at || e.outs == [] || f.outs == []
    ensures e.zAt + |e.gates| <= f.zAt || f.zAt + |f.gates| <= e.zAt || e.gates == [] || f.gates == []
  {
    assert !(Covers(e, e.at) && Covers(f, e.at)) && !(Covers(e, f.at) && Covers(f, f.at));
    assert !(CoversZ(e, e.zAt) && CoversZ(f, e.zAt)) && !(CoversZ(e, f.zAt) && CoversZ(f, f.zAt));
  }

  lemma ApplyCommutes<M, V>(e: Effect<M, V>, f: Effect<M, V>, m: Mem<M, V>)
    requires EffectFits(e, ShapeOf(m)) && EffectFits(f, ShapeOf(m)) && Apart(e, f)
    ensures Apply(e, Apply(f, m)) == Apply(f, Apply(e, m))
  {
    ApartRanges(e, f);
    PasteCommutes(m.delta, e.at, e.outs, f.at, f.outs);
    PasteCommutes(m.z, e.zAt, e.gates, f.zAt, f.gates);
    assert Overlay(Overlay(m.ssm, f.stores), e.stores) == Overlay(Overlay(m.ssm, e.stores), f.stores);
  }

  /** The same stores as `StoreStates`, as a map. */
  ghost function StoreMap<S, M, T, V>(t: Task<S, M, T, V>, addrs: seq<int>, first: nat, ends: seq<nat>,
                                      c: nat): (r: map<int, M>)
    requires |t.toks| == |t.ds| && c < |ends| && first + c <= |addrs|
    requires forall i :: 0 <= i < |ends| ==> ends[i] <= |t.toks|
    ensures forall x :: x in r ==> exists i :: first <= i < first + c && addrs[i] == x
  {
    if c == 0 then map[]
    else StoreMap(t, addrs, first, ends, c - 1)[addrs[first + c - 1] := t.k.save(StateAt(t, ends[c]))]
  }

  lemma {:induction false} StoreStatesIsOverlay<S, M, T, V>(t: Task<S, M, T, V>, ssm: seq<M>, addrs: seq<int>,
                                                            first: nat, ends: seq<nat>, c: nat)
    requires |t.toks| == |t.ds| && c < |ends| && first + c <= |addrs|
    requires forall i :: 0 <= i < |ends| ==> ends[i] <= |t.toks|
    requires forall i :: first <= i < first + c ==> 0 <= addrs[i] < |ssm|
    ensures StoreStates(t, ssm, addrs, first, ends, c) == Overlay(ssm, StoreMap(t, addrs, first, ends, c))
  {
    if c > 0 {
      StoreStatesIsOverlay(t, ssm, addrs, first, ends, c - 1);
    }
  }

  /** Where the program's tokens lie and what it reads. */
  ghost function EffectOf<S, M, T, V>(k: Kernel<S, M, T, V>, a: Launch<T>, p: Prog, m: Mem<M, V>): (e: Effect<M, V>)
    requires Sized(a, p, ShapeOf(m))
  {
    if Skipped(a, p.b) then Effect(0, [], 0, [], map[])
    else
      var t := TaskOf(k, a, p.b, p.d, m);
      Effect(Base(a, p.b, p.d), t.outs, if a.hasZ then ZBase(a, p.b, p.d) else 0, if a.hasZ then t.gates else [],
             if a.cacheEnabled
             then StoreMap(t, Addrs(a, p.b, p.d), a.blockIdxFirst[p.b], Ends(a.blockSize, p.computed, |t.toks|),
                           ChunkCount(a.blockSize, p.computed, |t.toks|))
             else map[SlotAddr(a, p.d, LoadSlot(a, p.b)) := k.save(StateAt(t, |t.toks|))])
  }

  lemma StoredSlots<S, M, T, V>(k: Kernel<S, M, T, V>, a: Launch<T>, p: Prog, m: Mem<M, V>)
    requires Sized(a, p, ShapeOf(m)) && !Skipped(a, p.b) && a.cacheEnabled
    ensures forall x :: x in EffectOf(k, a, p, m).stores ==> Stores(a, p, x) && 0 <= x < |m.ssm|
  {
    var e, addrs := EffectOf(k, a, p, m), Addrs(a, p.b, p.d);
    forall x | x in e.stores
      ensures Stores(a, p, x) && 0 <= x < |m.ssm|
    {
      var blk :| a.blockIdxFirst[p.b] <= blk <= a.blockIdxLast[p.b] && addrs[blk] == x;
      assert x == SlotAddr(a, p.d, a.cacheIndices[p.b][blk]);
    }
  }

  lemma EffectFootprint<S, M, T, V>(k: Kernel<S, M, T, V>, a: Launch<T>, p: Prog, m: Mem<M, V>)
    requires Sized(a, p, ShapeOf(m))
    ensures var e := EffectOf(k, a, p, m);
            && EffectFits(e, ShapeOf(m))
            && (forall i :: Covers(e, i) ==> Owns(a, p, i)) && (forall i :: CoversZ(e, i) ==> OwnsZ(a, p, i))
            && (forall x :: x in e.stores ==> Stores(a, p, x))
  {
    if !Skipped(a, p.b) && a.cacheEnabled {
      StoredSlots(k, a, p, m);
    }
  }

  lemma StepIsApply<S, M, T, V>(k: Kernel<S, M, T, V>, a: Launch<T>, p: Prog, m: Mem<M, V>)
    requires Sized(a, p, ShapeOf(m))
    ensures EffectFits(EffectOf(k, a, p, m), ShapeOf(m))
    ensures Step(k, a, p, m) == Apply(EffectOf(k, a, p, m), m)
  {
    EffectFootprint(k, a, p, m);
    var e := EffectOf(k, a, p, m);
    var x, y := Step(k, a, p, m), Apply(e, m);
    if Skipped(a, p.b) {
      assert x.delta == y.delta && x.z == y.z && x.ssm == y.ssm;
    } else {
      var t := TaskOf(k, a, p.b, p.d, m);
      assert x.z == y.z;
      if a.cacheEnabled {
        StoreStatesIsOverlay(t, m.ssm, Addrs(a, p.b, p.d), a.blockIdxFirst[p.b],
                             Ends(a.blockSize, p.computed, |t.toks|), ChunkCount(a.blockSize, p.computed, |t.toks|));
      } else {
        assert x.ssm == y.ssm;
      }
    }
  }

  lemma Untouched<S, M, T, V>(k: Kernel<S, M, T, V>, a: Launch<T>, p: Prog, q: Prog, m: Mem<M, V>)
    requires Sized(a, p, ShapeOf(m)) && Sized(a, q, ShapeOf(m))
    requires Independent(a, p, q, ShapeOf(m))
    ensures var m' := Step(k, a, q, m);
            && (forall i :: 0 <= i < |m.delta| && Owns(a, p, i) ==> m'.delta[i] == m.delta[i])
            && (forall i :: 0 <= i < |m.z| && OwnsZ(a, p, i) ==> m'.z[i] == m.z[i])
            && (forall x :: 0 <= x < |m.ssm| && Loads(a, p, x) ==> m'.ssm[x] == m.ssm[x])
  {
    StepIsApply(k, a, q, m);
    EffectFootprint(k, a, q, m);
    var e := EffectOf(k, a, q, m);
    forall x | x in e.stores
      ensures !Loads(a, p, x)
    {
      assert Stores(a, q, x);
    }
    forall i
      ensures Owns(a, p, i) ==> !Covers(e, i)
      ensures OwnsZ(a, p, i) ==> !CoversZ(e, i)
    {
    }
  }

  /** Another program's step leaves what this one reads alone. */
  lemma EffectStable<S, M, T, V>(k: Kernel<S, M, T, V>, a: Launch<T>, p: Prog, q: Prog, m: Mem<M, V>)
    requires Sized(a, p, ShapeOf(m)) && Sized(a, q, ShapeOf(m))
    requires Independent(a, p, q, ShapeOf(m))
    ensures EffectOf(k, a, p, Step(k, a, q, m)) == EffectOf(k, a, p, m)
  {
    Untouched(k, a, p, q, m);
    if !Skipped(a, p.b) {
      SameReads(k, a, p, m, Step(k, a, q, m));
    }
  }

  lemma SameSlice<V>(s: seq<V>, s': seq<V>, at: nat, n: nat)
    requires at + n <= |s| == |s'| && forall i :: at <= i < at + n ==> s'[i] == s[i]
    ensures s'[at..at + n] == s[at..at + n]
  {
  }

  lemma SameReads<S, M, T, V>(k: Kernel<S, M, T, V>, a: Launch<T>, p: Prog, m: Mem<M, V>, m': Mem<M, V>)
    requires Sized(a, p, ShapeOf(m)) && !Skipped(a, p.b)
    requires ShapeOf(m') == ShapeOf(m)
    requires forall i :: 0 <= i < |m.delta| && Owns(a, p, i) ==> m'.delta[i] == m.delta[i]
    requires forall i :: 0 <= i < |m.z| && OwnsZ(a, p, i) ==> m'.z[i] == m.z[i]
    requires forall x :: 0 <= x < |m.ssm| && Loads(a, p, x) ==> m'.ssm[x] == m.ssm[x]
    ensures TaskOf(k, a, p.b, p.d, m') == TaskOf(k, a, p.b, p.d, m)
  {
    var base, zBase, n := Base(a, p.b, p.d), ZBase(a, p.b, p.d), SeqLen(a, p.b);
    forall i | base <= i < base + n
      ensures m'.delta[i] == m.delta[i]
    {
      assert Owns(a, p, i);
    }
    SameSlice(m.delta, m'.delta, base, n);
    if a.hasZ {
      forall i | zBase <= i < zBase + n
        ensures m'.z[i] == m.z[i]
      {
        assert OwnsZ(a, p, i);
      }
      SameSlice(m.z, m'.z, zBase, n);
    }
    assert HasInit(a, p.b) ==> Loads(a, p, SlotAddr(a, p.d, LoadSlot(a, p.b)));
  }

  lemma EffectsApart<S, M, T, V>(k: Kernel<S, M, T, V>, a: Launch<T>, p: Prog, q: Prog, m: Mem<M, V>)
    requires Sized(a, p, ShapeOf(m)) && Sized(a, q, ShapeOf(m))
    requires Independent(a, p, q, ShapeOf(m))
    ensures Apart(EffectOf(k, a, p, m), EffectOf(k, a, q, m))
  {
    EffectFootprint(k, a, p, m);
    EffectFootprint(k, a, q, m);
    var e, f := EffectOf(k, a, p, m), EffectOf(k, a, q, m);
    forall x | x in e.stores
      ensures x !in f.stores
    {
      assert Stores(a, p, x);
    }
  }

  lemma StepAfter<S, M, T, V>(k: Kernel<S, M, T, V>, a: Launch<T>, p: Prog, q: Prog, m: Mem<M, V>)
    requires Sized(a, p, ShapeOf(m)) && Sized(a, q, ShapeOf(m))
    requires Independent(a, p, q, ShapeOf(m))
    ensures var e, f := EffectOf(k, a, p, m), EffectOf(k, a, q, m);
            && EffectFits(e, ShapeOf(m)) && EffectFits(f, ShapeOf(m))
            && Step(k, a, p, Step(k, a, q, m)) == Apply(e, Apply(f, m))
  {
    EffectStable(k, a, p, q, m);
    StepIsApply(k, a, q, m);
    StepIsApply(k, a, p, Step(k, a, q, m));
    EffectFootprint(k, a, p, m);
  }

  /** Two independent programs may run in either order. */
  lemma StepsCommute<S, M, T, V>(k: Kernel<S, M, T, V>, a: Launch<T>, p: Prog, q: Prog, m: Mem<M, V>)
    requires Sized(a, p, ShapeOf(m)) && Sized(a, q, ShapeOf(m))
    requires Independent(a, p, q, ShapeOf(m))
    ensures Step(k, a, p, Step(k, a, q, m)) == Step(k, a, q, Step(k, a, p, m))
  {
    StepAfter(k, a, p, q, m);
    StepAfter(k, a, q, p, m);
    EffectsApart(k, a, p, q, m);
    ApplyCommutes(EffectOf(k, a, p, m), EffectOf(k, a, q, m), m);
  }

  /** Programs none of which disturbs another. */
  ghost predicate Peaceful<T>(a: Launch<T>, all: set<Prog>, sh: Shape) {
    && (forall p :: p in all ==> Sized(a, p, sh))
    && (forall p, q :: p in all && q in all && p != q ==> Independent(a, p, q, sh))
  }

  /** A program as a step on memories of the given sizes. */
  ghost function Stepper<S, M, T, V>(k: Kernel<S, M, T, V>, a: Launch<T>, sh: Shape): (Prog, Mem<M, V>) -> Mem<M, V> {
    (p: Prog, m: Mem<M, V>) => if Shaped(m, sh) && Sized(a, p, sh) then Step(k, a, p, m) else m
  }

  ghost predicate Shaped<M, V>(m: Mem<M, V>, sh: Shape) {
    ShapeOf(m) == sh
  }

  ghost function ShapedBy<M, V>(sh: Shape): Mem<M, V> -> bool {
    (m: Mem<M, V>) => Shaped(m, sh)
  }

  lemma PeacefulCommute<S, M(!new), T, V(!new)>(k: Kernel<S, M, T, V>, a: Launch<T>, all: set<Prog>, sh: Shape)
    requires Peaceful(a, all, sh)
    ensures Commute(Stepper(k, a, sh), ShapedBy<M, V>(sh), all)
  {
    var step, ok := Stepper(k, a, sh), ShapedBy<M, V>(sh);
    forall p, q, m | p in all && q in all && p != q && ok(m)
      ensures step(p, step(q, m)) == step(q, step(p, m))
    {
      StepsCommute(k, a, p, q, m);
    }
  }

  /** The request stores into the slot (in every dim). */
  ghost predicate WritesSlot<T>(a: Launch<T>, b: nat, computed: nat, slot: int)
    requires InBatch(a, b) && (!Skipped(a, b) && a.cacheEnabled ==> Planned(a, b, computed))
  {
    && !Skipped(a, b)
    && if a.cacheEnabled
       then exists blk :: a.blockIdxFirst[b] <= blk <= a.blockIdxLast[b] && slot == a.cacheIndices[b][blk]
       else slot == LoadSlot(a, b)
  }

  ghost predicate ReadsSlot<T>(a: Launch<T>, b: nat, slot: int)
    requires InBatch(a, b)
  {
    !Skipped(a, b) && HasInit(a, b) && slot == LoadSlot(a, b)
  }

  /** Rows of a buffer with these strides do not run into each other: packed requests lie one behind the other in rows
      long enough for all of them; requests of equal length lie in rows of their own, the rows of a batch one behind the
      other. */
  ghost predicate RowsApart<T>(a: Launch<T>, batches: nat, batchStride: nat, dimStride: nat) {
    if a.varlen then
      && |a.queryStartLoc| == batches + 1 && Nondecreasing(a.queryStartLoc) && batchStride > 0
      && a.queryStartLoc[batches] * batchStride <= dimStride
    else
      a.seqlen <= dimStride && a.dim * dimStride <= batchStride
  }

  /** A launch, packed or of equal lengths, over buffers whose rows are apart, every program in bounds. */
  ghost predicate Laid<T>(a: Launch<T>, computed: seq<nat>, sh: Shape) {
    && a.dim > 0 && RowsApart(a, |computed|, a.batchStride, a.dimStride)
    && (a.hasZ ==> RowsApart(a, |computed|, a.zBatchStride, a.zDimStride))
    && (forall b :: 0 <= b < |computed| ==> InBatch(a, b))
    && forall b, d {:trigger Prog(b, d, computed[b])} :: 0 <= b < |computed| && 0 <= d < a.dim ==>
      Sized(a, Prog(b, d, computed[b]), sh)
  }

  /** What the block tables have to guarantee: a slot stored by one request is used by no other request
      of the launch. */
  ghost predicate SlotsSeparate<T>(a: Launch<T>, computed: seq<nat>, sh: Shape)
    requires Laid(a, computed, sh)
  {
    forall b, b', slot :: 0 <= b < |computed| && 0 <= b' < |computed| && b != b' && Writer(a, computed, sh, b, slot)
      ==> !Writer(a, computed, sh, b', slot) && !ReadsSlot(a, b', slot)
  }

  ghost predicate Writer<T>(a: Launch<T>, computed: seq<nat>, sh: Shape, b: nat, slot: int)
    requires Laid(a, computed, sh) && b < |computed|
  {
    assert Sized(a, Prog(b, 0, computed[b]), sh);
    WritesSlot(a, b, computed[b], slot)
  }

  lemma SlotOf<T>(a: Launch<T>, p: Prog, x: int, sh: Shape) returns (slot: int)
    requires Sized(a, p, sh) && (Stores(a, p, x) || Loads(a, p, x))
    ensures x == slot * a.dim + p.d && slot >= 0
    ensures Stores(a, p, x) ==> WritesSlot(a, p.b, p.computed, slot)
    ensures !Stores(a, p, x) ==> ReadsSlot(a, p.b, slot)
  {
    if Stores(a, p, x) && a.cacheEnabled {
      var blk :| a.blockIdxFirst[p.b] <= blk <= a.blockIdxLast[p.b] && x == SlotAddr(a, p.d, a.cacheIndices[p.b][blk]);
      slot := a.cacheIndices[p.b][blk];
    } else {
      slot := LoadSlot(a, p.b);
    }
    assert x >= 0;
    if slot < 0 {
      MulMonotone(slot, -1, a.dim);
    }
  }

  /** Different programs work on different elements of the delta and z buffers. */
  lemma RowsSeparate<T>(a: Launch<T>, computed: seq<nat>, sh: Shape, p: Prog, q: Prog)
    requires Laid(a, computed, sh) && p != q
    requires p.b < |computed| && p.d < a.dim && p.computed == computed[p.b]
    requires q.b < |computed| && q.d < a.dim && q.computed == computed[q.b]
    ensures forall i :: !(Owns(a, p, i) && Owns(a, q, i)) && !(OwnsZ(a, p, i) && OwnsZ(a, q, i))
  {
    forall i
      ensures !(Owns(a, p, i) && Owns(a, q, i)) && !(OwnsZ(a, p, i) && OwnsZ(a, q, i))
    {
      if Owns(a, p, i) && Owns(a, q, i) {
        RowUnique(a, |computed|, a.batchStride, a.dimStride, p, q, i);
      }
      if OwnsZ(a, p, i) && OwnsZ(a, q, i) {
        RowUnique(a, |computed|, a.zBatchStride, a.zDimStride, p, q, i);
      }
    }
  }

  /** Programs of a launch never share buffer elements, and share cache entries only through a shared slot. */
  lemma GridIndependent<T>(a: Launch<T>, computed: seq<nat>, sh: Shape, p: Prog, q: Prog)
    requires Laid(a, computed, sh) && SlotsSeparate(a, computed, sh)
    requires p.b < |computed| && p.d < a.dim && p.computed == computed[p.b]
    requires q.b < |computed| && q.d < a.dim && q.computed == computed[q.b]
    requires p != q
    ensures Sized(a, p, sh) && Sized(a, q, sh) && Independent(a, p, q, sh)
  {
    assert p == Prog(p.b, p.d, computed[p.b]) && q == Prog(q.b, q.d, computed[q.b]);
    RowsSeparate(a, computed, sh, p, q);
    forall x
      ensures !(Stores(a, p, x) && (Stores(a, q, x) || Loads(a, q, x)))
      ensures !(Loads(a, p, x) && Stores(a, q, x))
    {
      if (Stores(a, p, x) && (Stores(a, q, x) || Loads(a, q, x))) || (Loads(a, p, x) && Stores(a, q, x)) {
        SharedSlot(a, computed, sh, p, q, x);
      }
    }
  }

  /** A program's store meets another's access only if the two are the same. */
  lemma SharedSlot<T>(a: Launch<T>, computed: seq<nat>, sh: Shape, p: Prog, q: Prog, x: int)
    requires Laid(a, computed, sh) && SlotsSeparate(a, computed, sh)
    requires p.b < |computed| && p.d < a.dim && p.computed == computed[p.b] && Sized(a, p, sh)
    requires q.b < |computed| && q.d < a.dim && q.computed == computed[q.b] && Sized(a, q, sh)
    requires (Stores(a, p, x) && (Stores(a, q, x) || Loads(a, q, x))) || (Loads(a, p, x) && Stores(a, q, x))
    ensures p == q
  {
    var s := SlotOf(a, p, x, sh);
    var s' := SlotOf(a, q, x, sh);
    FlatUnique(s, p.d, s', q.d, a.dim);
    var wp, wq := Writer(a, computed, sh, p.b, s), Writer(a, computed, sh, q.b, s);
  }

  ghost predicate InRow<T>(a: Launch<T>, p: Prog, batchStride: nat, dimStride: nat, i: int)
    requires InBatch(a, p.b)
  {
    RowStart(a, p.b, p.d, batchStride, dimStride) <= i < RowStart(a, p.b, p.d, batchStride, dimStride) + SeqLen(a, p.b)
  }

  /** An element lies in the row of one request and dim only. */
  lemma RowUnique<T>(a: Launch<T>, batches: nat, batchStride: nat, dimStride: nat, p: Prog, q: Prog, i: int)
    requires RowsApart(a, batches, batchStride, dimStride) && p.b < batches && q.b < batches && p.d < a.dim
        && q.d < a.dim
    requires InBatch(a, p.b) && InBatch(a, q.b)
    requires InRow(a, p, batchStride, dimStride, i) && InRow(a, q, batchStride, dimStride, i)
    ensures p.b == q.b && p.d == q.d
  {
    if a.varlen {
      PackedUnique(a.queryStartLoc, batchStride, dimStride, p, q, i);
    } else {
      StridedUnique(a.dim, a.seqlen, batchStride, dimStride, p, q, i);
    }
  }

  lemma PackedUnique(loc: seq<nat>, batchStride: nat, dimStride: nat, p: Prog, q: Prog, i: int)
    requires Nondecreasing(loc) && batchStride > 0 && p.b + 1 < |loc| && q.b + 1 < |loc|
    requires loc[|loc| - 1] * batchStride <= dimStride
    requires 0 <= i - p.d * dimStride - loc[p.b] * batchStride < loc[p.b + 1] - loc[p.b]
    requires 0 <= i - q.d * dimStride - loc[q.b] * batchStride < loc[q.b + 1] - loc[q.b]
    ensures p.b == q.b && p.d == q.d
  {
    var x, y := i - p.d * dimStride, i - q.d * dimStride;
    PackedRow(loc, batchStride, p.b, x);
    PackedRow(loc, batchStride, q.b, y);
    FlatUnique(p.d, x, q.d, y, dimStride);
    if p.b < q.b {
      MulMonotone(loc[p.b + 1], loc[q.b], batchStride);
    } else if q.b < p.b {
      MulMonotone(loc[q.b + 1], loc[p.b], batchStride);
    }
  }

  lemma StridedUnique(dim: nat, len: nat, batchStride: nat, dimStride: nat, p: Prog, q: Prog, i: int)
    requires len <= dimStride && dim * dimStride <= batchStride && p.d < dim && q.d < dim
    requires 0 <= i - p.b * batchStride - p.d * dimStride < len && 0 <= i - q.b * batchStride - q.d * dimStride < len
    ensures p.b == q.b && p.d == q.d
  {
    var x, y := i - p.b * batchStride, i - q.b * batchStride;
    RowWithin(dim, dimStride, batchStride, p.d, x);
    RowWithin(dim, dimStride, batchStride, q.d, y);
    FlatUnique(p.b, x, q.b, y, batchStride);
    FlatUnique(p.d, x - p.d * dimStride, q.d, x - q.d * dimStride, dimStride);
  }

  lemma RowWithin(dim: nat, dimStride: nat, batchStride: nat, d: nat, x: int)
    requires d < dim && dim * dimStride <= batchStride && 0 <= x - d * dimStride < dimStride
    ensures 0 <= x < batchStride
  {
    MulMonotone(d + 1, dim, dimStride);
    MulMonotone(0, d, dimStride);
    assert (d + 1) * dimStride == d * dimStride + dimStride;
  }

  /** A packed request ends before the next one begins, whatever the stride. */
  lemma PackedRow(loc: seq<nat>, stride: nat, b: nat, x: int)
    requires Nondecreasing(loc) && stride > 0 && b + 1 < |loc|
        && loc[b] * stride <= x < loc[b] * stride + (loc[b + 1] - loc[b])
    ensures 0 <= x < loc[b + 1] * stride <= loc[|loc| - 1] * stride
  {
    var n := loc[b + 1] - loc[b];
    MulMonotone(1, stride, n);
    assert loc[b + 1] * stride == loc[b] * stride + n * stride;
    MulMonotone(loc[b + 1], loc[|loc| - 1], stride);
    MulMonotone(0, loc[b], stride);
  }

  /** The programs of a launch. */
  ghost function Grid<T>(a: Launch<T>, computed: seq<nat>): set<Prog> {
    set b, d | 0 <= b < |computed| && 0 <= d < a.dim :: Prog(b, d, computed[b])
  }

  lemma GridIsPeaceful<T>(a: Launch<T>, computed: seq<nat>, sh: Shape)
    requires Laid(a, computed, sh) && SlotsSeparate(a, computed, sh)
    ensures Peaceful(a, Grid(a, computed), sh)
  {
    forall p, q | p in Grid(a, computed) && q in Grid(a, computed) && p != q
      ensures Independent(a, p, q, sh)
    {
      GridIndependent(a, computed, sh, p, q);
    }
  }

  /** The whole grid: any enumeration of its programs leaves the same memory as any other. */
  lemma GridAnyOrder<S, M(!new), T, V(!new)>(k: Kernel<S, M, T, V>, a: Launch<T>, computed: seq<nat>, ps: seq<Prog>,
                                             qs: seq<Prog>, m: Mem<M, V>)
    requires Laid(a, computed, ShapeOf(m)) && SlotsSeparate(a, computed, ShapeOf(m))
    requires From(ps, Grid(a, computed)) && From(qs, Grid(a, computed))
    requires multiset(ps) == multiset(qs) && forall i, j :: 0 <= i < j < |ps| ==> ps[i] != ps[j]
    ensures forall p :: p in Grid(a, computed) ==> Sized(a, p, ShapeOf(m))
    ensures var step := Stepper(k, a, ShapeOf(m)); Fold(step, ps, m) == Fold(step, qs, m)
  {
    GridIsPeaceful(a, computed, ShapeOf(m));
    PeacefulCommute(k, a, Grid(a, computed), ShapeOf(m));
    AnyOrder(Stepper(k, a, ShapeOf(m)), ShapedBy<M, V>(ShapeOf(m)), Grid(a, computed), ps, qs, m);
  }
}
