/**
 One (batch, dim) program of the selective scan kernel and the grid launch. Outputs are written over the
 delta buffer (and, when present, over z); after each chunk the state is stored in the slot that the
 request's block table names.
 */
module ScanKernel {
  import opened Arith
  import opened ChunkMetadata
  import opened Recurrence
  import opened Wrappers

  /** Read-only launch arguments. `tok(b, d, pos)` stands for the loads of u, B and C. */
  datatype Launch<!T> = Launch(
    varlen: bool, seqlen: nat, queryStartLoc: seq<nat>, batchStride: nat, dimStride: nat,
    dim: nat, hasZ: bool, zBatchStride: nat, zDimStride: nat,
    cacheEnabled: bool, hasCacheIndices: bool, cacheIndices: seq<seq<int>>, nullBlock: int,
    hasInitialState: Option<seq<bool>>, blockSize: nat,
    blockIdxFirst: seq<nat>, blockIdxLast: seq<nat>, initialStateIdx: seq<nat>,
    cuChunk: seq<nat>, lastChunk: seq<int>,
    tok: (int, int, int) -> T)

  /** Device memory: the delta/out buffer, the z/out_z buffer and the state cache (one entry per slot and dim). */
  datatype Mem<!M, !V> = Mem(delta: seq<V>, z: seq<V>, ssm: seq<M>)

  predicate InBatch<T>(a: Launch<T>, b: nat) {
    && (a.varlen ==> b + 1 < |a.queryStartLoc| && a.queryStartLoc[b] <= a.queryStartLoc[b + 1])
    && (a.hasInitialState.Some? ==> b < |a.hasInitialState.value|)
    && (a.cacheEnabled ==>
          b < |a.cacheIndices| && b < |a.initialStateIdx| && a.initialStateIdx[b] < |a.cacheIndices[b]|)
    && (!a.cacheEnabled && a.hasCacheIndices ==> b < |a.cacheIndices| && |a.cacheIndices[b]| > 0)
  }

  function SeqLen<T>(a: Launch<T>, b: nat): nat
    requires InBatch(a, b)
  {
    if a.varlen then a.queryStartLoc[b + 1] - a.queryStartLoc[b] else a.seqlen
  }

  /** Address of the request's first element in dim d of a buffer with the given strides. Packed requests are found
      through the batch stride as well; from there on tokens are neighbours. */
  function RowStart<T>(a: Launch<T>, b: nat, d: nat, batchStride: nat, dimStride: nat): nat
    requires InBatch(a, b)
  {
    if a.varlen then d * dimStride + a.queryStartLoc[b] * batchStride else b * batchStride + d * dimStride
  }

  function Base<T>(a: Launch<T>, b: nat, d: nat): nat
    requires InBatch(a, b)
  {
    RowStart(a, b, d, a.batchStride, a.dimStride)
  }

  function ZBase<T>(a: Launch<T>, b: nat, d: nat): nat
    requires InBatch(a, b)
  {
    RowStart(a, b, d, a.zBatchStride, a.zDimStride)
  }

  function Tokens<T>(a: Launch<T>, b: nat, d: nat): (toks: seq<T>)
    requires InBatch(a, b)
    ensures |toks| == SeqLen(a, b)
  {
    seq(SeqLen(a, b), pos => a.tok(b, d, pos))
  }

  function LoadSlot<T>(a: Launch<T>, b: nat): int
    requires InBatch(a, b)
  {
    if a.cacheEnabled then a.cacheIndices[b][a.initialStateIdx[b]]
    else if a.hasCacheIndices then a.cacheIndices[b][0]
    else b
  }

  predicate Skipped<T>(a: Launch<T>, b: nat)
    requires InBatch(a, b)
  {
    (a.cacheEnabled || a.hasCacheIndices) && LoadSlot(a, b) == a.nullBlock
  }

  predicate HasInit<T>(a: Launch<T>, b: nat)
    requires InBatch(a, b)
  {
    a.hasInitialState.Some? && a.hasInitialState.value[b]
  }

  function SlotAddr<T>(a: Launch<T>, d: nat, slot: int): int {
    slot * a.dim + d
  }

  /** The metadata contract of the planner for a request with `computed` tokens behind it. */
  ghost predicate Planned<T>(a: Launch<T>, b: nat, computed: nat)
    requires InBatch(a, b) && a.cacheEnabled
  {
    var n := SeqLen(a, b);
    && a.blockSize > 0 && n > 0
    && b < |a.lastChunk| && b < |a.blockIdxFirst| && b < |a.blockIdxLast|
    && a.blockIdxFirst[b] == computed / a.blockSize
    && a.blockIdxLast[b] == (computed + n - 1) / a.blockSize
    && a.blockIdxLast[b] < |a.cacheIndices[b]|
    && exists origin :: Placed(a.blockSize, computed, n, origin, a.cuChunk, FirstChunk(a.lastChunk, b), a.lastChunk[b])
  }

  /** Every address the program touches lies in its buffer. */
  ghost predicate InBounds<T>(a: Launch<T>, b: nat, d: nat, computed: nat, elems: nat, zElems: nat, entries: nat)
  {
    && InBatch(a, b) && d < a.dim
    && (!Skipped(a, b) ==>
      && Base(a, b, d) + SeqLen(a, b) <= elems && (a.hasZ ==> ZBase(a, b, d) + SeqLen(a, b) <= zElems)
      && 0 <= SlotAddr(a, d, LoadSlot(a, b)) < entries
      && (a.cacheEnabled ==>
        && Planned(a, b, computed)
        && forall blk :: a.blockIdxFirst[b] <= blk <= a.blockIdxLast[b] ==>
          0 <= SlotAddr(a, d, a.cacheIndices[b][blk]) < entries))
  }

  /** Write `new` over `old` from `at` on. */
  function Paste<V>(old_: seq<V>, at: nat, new_: seq<V>): (r: seq<V>)
    requires at + |new_| <= |old_|
    ensures |r| == |old_|
    ensures forall i :: 0 <= i < |r| ==> r[i] == if at <= i < at + |new_| then new_[i - at] else old_[i]
  {
    old_[..at] + new_ + old_[at + |new_|..]
  }

  /** What a program works on (kernel, initial state and inputs, copied aside) and what it must produce. */
  datatype Task<!S, !M, !T, !V> = Task(k: Kernel<S, M, T, V>, start: S, toks: seq<T>, ds: seq<V>, zs: seq<V>,
                                       outs: seq<V>, gates: seq<V>)

  ghost predicate Fits<S, M, T, V>(t: Task<S, M, T, V>) {
    && |t.toks| == |t.ds| == |t.zs| == |t.outs| == |t.gates|
    && (forall i {:trigger OutAt(t.k, t.start, t.toks, t.ds, i)} :: 0 <= i < |t.toks| ==>
      t.outs[i] == OutAt(t.k, t.start, t.toks, t.ds, i))
    && (forall i {:trigger GateAt(t.k, t.start, t.toks, t.ds, t.zs, i)} :: 0 <= i < |t.toks| ==>
      t.gates[i] == GateAt(t.k, t.start, t.toks, t.ds, t.zs, i))
  }

  function StateAt<S, M, T, V>(t: Task<S, M, T, V>, n: nat): S
    requires n <= |t.toks| == |t.ds|
  {
    Run(t.k, t.start, t.toks, t.ds, n)
  }

  /** The state cache after the first `c` chunks: chunk i leaves the state after ends[i + 1] tokens in the slot
      of block first + i. */
  function StoreStates<S, M, T, V>(t: Task<S, M, T, V>, ssm: seq<M>, addrs: seq<int>, first: nat, ends: seq<nat>,
                                   c: nat): (r: seq<M>)
    requires |t.toks| == |t.ds|
    requires c < |ends| && first + c <= |addrs|
    requires forall i :: 0 <= i < |ends| ==> ends[i] <= |t.toks|
    requires forall i :: first <= i < first + c ==> 0 <= addrs[i] < |ssm|
    ensures |r| == |ssm|
  {
    if c == 0 then ssm
    else StoreStates(t, ssm, addrs, first, ends, c - 1)
      [addrs[first + c - 1] := t.k.save(StateAt(t, ends[c]))]
  }

  /** Tokens done after each chunk. */
  function Ends(size: nat, computed: nat, n: nat): (ends: seq<nat>)
    requires size > 0
    ensures |ends| == ChunkCount(size, computed, n) + 1
    ensures forall i :: 0 <= i < |ends| ==> ends[i] <= n
  {
    seq(ChunkCount(size, computed, n) + 1, c requires c >= 0 => DoneIn(size, computed, n, c))
  }

  function DoneIn(size: nat, computed: nat, n: nat, c: nat): (r: nat)
    requires size > 0
    ensures r <= n
  {
    Done(size, computed, n, c)
  }

  function Addrs<T>(a: Launch<T>, b: nat, d: nat): (r: seq<int>)
    requires InBatch(a, b) && a.cacheEnabled
    ensures |r| == |a.cacheIndices[b]|
  {
    seq(|a.cacheIndices[b]|, i requires 0 <= i < |a.cacheIndices[b]| => SlotAddr(a, d, a.cacheIndices[b][i]))
  }

  function StartState<S, M, T, V>(k: Kernel<S, M, T, V>, a: Launch<T>, b: nat, d: nat, ssm: seq<M>): S
    requires InBatch(a, b) && 0 <= SlotAddr(a, d, LoadSlot(a, b)) < |ssm|
  {
    if HasInit(a, b) then k.load(ssm[SlotAddr(a, d, LoadSlot(a, b))]) else k.zero
  }

  /** The program's inputs, copied aside before anything is overwritten. */
  function TaskOf<S, M, T, V>(k: Kernel<S, M, T, V>, a: Launch<T>, b: nat, d: nat, m: Mem<M, V>): (t: Task<S, M, T, V>)
    requires InBatch(a, b) && Base(a, b, d) + SeqLen(a, b) <= |m.delta|
        && (a.hasZ ==> ZBase(a, b, d) + SeqLen(a, b) <= |m.z|)
    requires 0 <= SlotAddr(a, d, LoadSlot(a, b)) < |m.ssm|
    ensures Fits(t) && |t.toks| == SeqLen(a, b)
  {
    var base, zBase, n := Base(a, b, d), ZBase(a, b, d), SeqLen(a, b);
    var toks, ds := Tokens(a, b, d), m.delta[base..base + n];
    var zs := if a.hasZ then m.z[zBase..zBase + n] else ds;
    var s := StartState(k, a, b, d, m.ssm);
    Task(k, s, toks, ds, zs, Outputs(k, s, toks, ds), GatedOutputs(k, s, toks, ds, zs))
  }

  /** What a program does to memory. */
  ghost function Exec<S, M, T, V>(k: Kernel<S, M, T, V>, a: Launch<T>, b: nat, d: nat, computed: nat,
                                  m: Mem<M, V>): (r: Mem<M, V>)
    requires InBounds(a, b, d, computed, |m.delta|, |m.z|, |m.ssm|)
    ensures |r.delta| == |m.delta| && |r.z| == |m.z| && |r.ssm| == |m.ssm|
  {
    if Skipped(a, b) then m
    else
      var t := TaskOf(k, a, b, d, m);
      Mem(Paste(m.delta, Base(a, b, d), t.outs),
          if a.hasZ then Paste(m.z, ZBase(a, b, d), t.gates) else m.z,
          if a.cacheEnabled
          then StoreStates(t, m.ssm, Addrs(a, b, d), a.blockIdxFirst[b], Ends(a.blockSize, computed, |t.toks|),
                           ChunkCount(a.blockSize, computed, |t.toks|))
          else m.ssm[SlotAddr(a, d, LoadSlot(a, b)) := k.save(StateAt(t, |t.toks|))])
  }

  /** The kernel's guess at the absolute position of the first chunk is right whenever it is used:
      with several chunks the first one ends a block. */
  lemma StartPosition(size: nat, computed: nat, n: nat)
    requires size > 0 && n > 0 && ChunkCount(size, computed, n) > 1
    ensures Done(size, computed, n, 1) <= size
    ensures computed / size * size + (size - Done(size, computed, n, 1)) == computed
  {
    DivBounds(computed, size);
    DivBounds(computed + n - 1, size);
    MulMonotone(computed / size + 1, (computed + n - 1) / size, size);
  }

  /** A chunk that is not the last ends a block, and the kernel's division finds that block. */
  lemma BlockDone(size: nat, computed: nat, n: nat, c: nat)
    requires size > 0 && n > 0 && c + 1 < ChunkCount(size, computed, n)
    ensures (computed + Done(size, computed, n, c + 1) - 1) / size == computed / size + c
  {
    var q := computed / size;
    DivBounds(computed + n - 1, size);
    MulMonotone(q + c + 1, (computed + n - 1) / size, size);
    assert (q + c + 1) * size == (q + c) * size + size;
    DivUnique((q + c + 1) * size - 1, size, q + c);
  }

  lemma DoneGrows(size: nat, computed: nat, n: nat, c: nat)
    requires size > 0
    ensures Done(size, computed, n, c) <= Done(size, computed, n, c + 1) <= n
  {
    var q := computed / size;
    DivBounds(computed, size);
    MulMonotone(q + c, q + c + 1, size);
    MulMonotone(q + 1, q + c + 1, size);
  }

  /** Position `p` is past `blk` as far as the kernel's division can tell. */
  ghost predicate EndsBlock(p: int, size: nat, blk: nat) {
    size > 0 && p > 0 && (p - 1) / size == blk
  }

  /** What the chunk loop needs to know about chunk `c`. */
  ghost predicate ChunkFits(ends: seq<nat>, cu: seq<nat>, firstChunk: int, size: nat, computed: nat, n: nat, c: nat)
    requires size > 0 && c + 1 < |ends| && 0 <= firstChunk && firstChunk + |ends| <= |cu|
  {
    && ends[c] <= ends[c + 1] <= n
    && cu[firstChunk + c + 1] == cu[firstChunk + c] + (ends[c + 1] - ends[c])
    && (c + 2 < |ends| ==> EndsBlock(computed + ends[c + 1], size, computed / size + c))
  }

  ghost predicate Schedule(ends: seq<nat>, cu: seq<nat>, firstChunk: int, size: nat, computed: nat, n: nat)
  {
    && size > 0 && |ends| > 1 && ends[0] == 0 && ends[|ends| - 1] == n
    && 0 <= firstChunk && firstChunk + |ends| <= |cu|
    && (|ends| > 2 ==> ends[1] <= size && computed / size * size + (size - ends[1]) == computed)
    && (forall c {:trigger ChunkFits(ends, cu, firstChunk, size, computed, n, c)} :: 0 <= c < |ends| - 1 ==>
      ChunkFits(ends, cu, firstChunk, size, computed, n, c))
  }

  lemma Scheduled<T>(a: Launch<T>, b: nat, computed: nat)
    requires InBatch(a, b) && a.cacheEnabled && Planned(a, b, computed)
    ensures Schedule(Ends(a.blockSize, computed, SeqLen(a, b)), a.cuChunk, FirstChunk(a.lastChunk, b),
                     a.blockSize, computed, SeqLen(a, b))
  {
    var size, n := a.blockSize, SeqLen(a, b);
    var first, nChunks := FirstChunk(a.lastChunk, b), ChunkCount(size, computed, n);
    var origin :| Placed(size, computed, n, origin, a.cuChunk, first, a.lastChunk[b]);
    AllDone(size, computed, n);
    if nChunks > 1 {
      StartPosition(size, computed, n);
    }
    var ends := Ends(size, computed, n);
    forall c | 0 <= c < nChunks
      ensures ChunkFits(ends, a.cuChunk, first, size, computed, n, c)
    {
      DoneGrows(size, computed, n, c);
      assert a.cuChunk[first + c] == origin + Done(size, computed, n, c);
      assert a.cuChunk[first + (c + 1)] == origin + Done(size, computed, n, c + 1);
      if c < nChunks - 1 {
        BlockDone(size, computed, n, c);
      }
    }
  }

  /** The first `n` elements of `after` stand in the buffer from `base` on, followed by the rest of `before`. */
  ghost predicate Overwritten<V>(buf: array<V>, buf0: seq<V>, base: nat, before: seq<V>, after: seq<V>, n: nat)
    reads buf
  {
    && n <= |before| == |after| && buf.Length == |buf0| && base + |before| <= |buf0|
    && forall j :: 0 <= j < buf.Length ==>
      buf[j] == if base <= j < base + n then after[j - base]
                else if base <= j < base + |before| then before[j - base]
                else buf0[j]
  }

  /** Outputs of the first `n` tokens are in place in both buffers. */
  ghost predicate Buffers<S, M, T, V>(t: Task<S, M, T, V>, hasZ: bool, delta: array<V>, z: array<V>, m: Mem<M, V>,
                                      base: nat, zBase: nat, n: nat)
    reads delta, z
  {
    && Overwritten(delta, m.delta, base, t.ds, t.outs, n)
    && if hasZ then Overwritten(z, m.z, zBase, t.zs, t.gates, n) else z[..] == m.z
  }

  /** The body of the token loop. The delta and z elements are read before outputs overwrite them. */
  method ScanToken<S, M, T, V>(k: Kernel<S, M, T, V>, tok: T, hasZ: bool, delta: array<V>, z: array<V>,
                               at: nat, zAt: nat, before: S)
      returns (state: S)
    requires delta != z && at < delta.Length && (hasZ ==> zAt < z.Length)
    modifies delta, z
    ensures state == k.step(before, tok, old(delta[at]))
    ensures delta[at] == k.castOut(k.out(state, tok))
    ensures hasZ ==> z[zAt] == k.gate(k.out(state, tok), old(z[zAt]))
    ensures forall j :: 0 <= j < delta.Length && j != at ==> delta[j] == old(delta[j])
    ensures forall j :: 0 <= j < z.Length && !(hasZ && j == zAt) ==> z[j] == old(z[j])
  {
    var deltaVal := delta[at];
    state := k.step(before, tok, deltaVal);
    var outVal := k.out(state, tok);
    delta[at] := k.castOut(outVal);
    if hasZ {
      var zVal := z[zAt];
      z[zAt] := k.gate(outVal, zVal);
    }
  }

  /** The token loop of one chunk. */
  method ScanTokens<S, M, T, V>(k: Kernel<S, M, T, V>, a: Launch<T>, b: nat, d: nat, base: nat, zBase: nat,
                                delta: array<V>, z: array<V>, processed: nat, count: nat, before: S,
                                ghost t: Task<S, M, T, V>, ghost m: Mem<M, V>) returns (state: S)
    requires delta != z
    requires Fits(t) && t.k == k
    requires forall pos :: 0 <= pos < |t.toks| ==> t.toks[pos] == a.tok(b, d, pos)
    requires processed + count <= |t.toks|
    requires before == StateAt(t, processed)
    requires Buffers(t, a.hasZ, delta, z, m, base, zBase, processed)
    modifies delta, z
    ensures state == StateAt(t, processed + count)
    ensures Buffers(t, a.hasZ, delta, z, m, base, zBase, processed + count)
  {
    state := before;
    for local := 0 to count
      invariant state == StateAt(t, processed + local)
      invariant Buffers(t, a.hasZ, delta, z, m, base, zBase, processed + local)
    {
      var pos := processed + local;
      assert delta[base + pos] == t.ds[pos] && (a.hasZ ==> z[zBase + pos] == t.zs[pos]);
      state := ScanToken(k, a.tok(b, d, pos), a.hasZ, delta, z, base + pos, zBase + pos, state);
      assert state == StateAt(t, pos + 1);
      assert t.outs[pos] == OutAt(k, t.start, t.toks, t.ds, pos);
      assert t.gates[pos] == GateAt(k, t.start, t.toks, t.ds, t.zs, pos);
    }
  }

  /** The absolute position the kernel assumes for the first chunk of a request. */
  function InitialPosition<T>(a: Launch<T>, b: nat, firstChunkIdx: int, nChunks: int): (p: nat)
    requires b < |a.blockIdxFirst| && 0 <= firstChunkIdx && firstChunkIdx + 1 < |a.cuChunk|
  {
    var firstChunkTokens := a.cuChunk[firstChunkIdx + 1] as int - a.cuChunk[firstChunkIdx];
    var chunkStartOffset := if nChunks > 1 && firstChunkTokens < a.blockSize then a.blockSize - firstChunkTokens else 0;
    a.blockIdxFirst[b] * a.blockSize + chunkStartOffset
  }

  lemma PositionExact<T>(a: Launch<T>, b: nat, firstChunkIdx: int, nChunks: int, computed: nat, ends: seq<nat>, n: nat)
    requires b < |a.blockIdxFirst| && nChunks > 1 && |ends| == nChunks + 1
    requires Schedule(ends, a.cuChunk, firstChunkIdx, a.blockSize, computed, n)
    requires a.blockIdxFirst[b] == computed / a.blockSize
    ensures InitialPosition(a, b, firstChunkIdx, nChunks) == computed
  {
    assert ChunkFits(ends, a.cuChunk, firstChunkIdx, a.blockSize, computed, n, 0);
  }

  /** The kernel's current position after the first `c` chunks. */
  function PositionAfter<T>(a: Launch<T>, b: nat, firstChunkIdx: nat, nChunks: int, c: nat): int
    requires b < |a.blockIdxFirst| && firstChunkIdx + 1 < |a.cuChunk| && firstChunkIdx + c < |a.cuChunk|
  {
    if c == 0 then InitialPosition(a, b, firstChunkIdx, nChunks)
    else PositionAfter(a, b, firstChunkIdx, nChunks,
                       c - 1) + (a.cuChunk[firstChunkIdx + c] as int - a.cuChunk[firstChunkIdx + c - 1])
  }

  /** With several chunks it is the true position, before every chunk. */
  lemma {:induction false} PositionsExact<T>(a: Launch<T>, b: nat, firstChunkIdx: nat, nChunks: int, computed: nat,
                                             ends: seq<nat>, n: nat, c: nat)
    requires b < |a.blockIdxFirst| && nChunks > 1 && |ends| == nChunks + 1 && c < |ends|
    requires Schedule(ends, a.cuChunk, firstChunkIdx, a.blockSize, computed, n)
    requires a.blockIdxFirst[b] == computed / a.blockSize
    ensures PositionAfter(a, b, firstChunkIdx, nChunks, c) == computed + ends[c]
  {
    if c == 0 {
      PositionExact(a, b, firstChunkIdx, nChunks, computed, ends, n);
    } else {
      PositionsExact(a, b, firstChunkIdx, nChunks, computed, ends, n, c - 1);
      assert ChunkFits(ends, a.cuChunk, firstChunkIdx, a.blockSize, computed, n, c - 1);
    }
  }

  /** One round of the chunk loop: scan the chunk's tokens, then store the state. */
  method ScanChunk<S, M, T, V>(k: Kernel<S, M, T, V>, a: Launch<T>, b: nat, d: nat, base: nat, zBase: nat,
                               delta: array<V>, z: array<V>, ssm: array<M>, chunk: nat, nChunks: nat,
                               currentPosition: nat, chunkTokens: nat, processed: nat, before: S,
                               ghost blk: nat, ghost t: Task<S, M, T, V>, ghost m: Mem<M, V>)
      returns (state: S)
    requires delta != z && ssm as object != delta && ssm as object != z
    requires a.blockSize > 0 && b < |a.blockIdxLast| && b < |a.cacheIndices| && blk < |a.cacheIndices[b]|
    requires chunk + 1 == nChunks ==> blk == a.blockIdxLast[b]
    requires chunk + 1 != nChunks ==> EndsBlock(currentPosition + chunkTokens, a.blockSize, blk)
    requires 0 <= SlotAddr(a, d, a.cacheIndices[b][blk]) < ssm.Length
    requires Fits(t) && t.k == k && processed + chunkTokens <= |t.toks|
    requires forall pos :: 0 <= pos < |t.toks| ==> t.toks[pos] == a.tok(b, d, pos)
    requires before == StateAt(t, processed)
    requires Buffers(t, a.hasZ, delta, z, m, base, zBase, processed)
    modifies delta, z, ssm
    ensures state == StateAt(t, processed + chunkTokens)
    ensures Buffers(t, a.hasZ, delta, z, m, base, zBase, processed + chunkTokens)
    ensures ssm[..] == old(ssm[..])[SlotAddr(a, d, a.cacheIndices[b][blk]) := k.save(state)]
  {
    state := ScanTokens(k, a, b, d, base, zBase, delta, z, processed, chunkTokens, before, t, m);
    var block := a.blockIdxLast[b];
    if chunk != nChunks - 1 {
      block := (currentPosition + chunkTokens - 1) / a.blockSize;
    }
    var slot := a.cacheIndices[b][block];
    ssm[slot * a.dim + d] := k.save(state);
  }

  /** The metadata of the request, as the chunk loop uses it. */
  ghost predicate Ready<S, M, T, V>(a: Launch<T>, b: nat, d: nat, computed: nat, ends: seq<nat>, addrs: seq<int>,
                                    t: Task<S, M, T, V>, entries: nat)
  {
    && b < |a.lastChunk| && b < |a.blockIdxFirst| && b < |a.blockIdxLast| && b < |a.cacheIndices|
    && |ends| > 1 && a.lastChunk[b] - FirstChunk(a.lastChunk, b) + 1 == |ends| - 1
    && Schedule(ends, a.cuChunk, FirstChunk(a.lastChunk, b), a.blockSize, computed, |t.toks|)
    && a.blockIdxFirst[b] == computed / a.blockSize && a.blockIdxLast[b] == a.blockIdxFirst[b] + |ends| - 2
    && a.blockIdxLast[b] < |a.cacheIndices[b]| == |addrs|
    && (forall i :: 0 <= i < |addrs| ==> addrs[i] == SlotAddr(a, d, a.cacheIndices[b][i]))
    && (forall blk :: a.blockIdxFirst[b] <= blk <= a.blockIdxLast[b] ==> 0 <= addrs[blk] < entries)
    && Fits(t)
    && (forall pos :: 0 <= pos < |t.toks| ==> t.toks[pos] == a.tok(b, d, pos))
    && (forall i :: 0 <= i < |ends| ==> ends[i] <= |t.toks|)
  }

  /** What holds after `c` rounds of the chunk loop. */
  ghost predicate Rounds<S, M, T, V>(a: Launch<T>, b: nat, d: nat, computed: nat, ends: seq<nat>, addrs: seq<int>,
                                     t: Task<S, M, T, V>, m: Mem<M, V>, base: nat, zBase: nat,
                                     delta: array<V>, z: array<V>, ssm: array<M>, c: nat,
                                     processed: nat, currentPosition: nat, state: S)
    requires Ready(a, b, d, computed, ends, addrs, t, |m.ssm|)
    reads delta, z, ssm
  {
    && c < |ends| && processed == ends[c]
    && (|ends| > 2 ==> currentPosition == computed + processed)
    && state == StateAt(t, processed)
    && Buffers(t, a.hasZ, delta, z, m, base, zBase, processed)
    && ssm[..] == StoreStates(t, m.ssm, addrs, a.blockIdxFirst[b], ends, c)
  }

  /** One round of the chunk loop. */
  method ChunkRound<S, M, T, V>(k: Kernel<S, M, T, V>, a: Launch<T>, b: nat, d: nat, base: nat, zBase: nat,
                                delta: array<V>, z: array<V>, ssm: array<M>, firstChunkIdx: nat, chunk: nat,
                                    nChunks: nat,
                                processed: nat, currentPosition: nat, before: S,
                                ghost computed: nat, ghost ends: seq<nat>, ghost addrs: seq<int>,
                                ghost t: Task<S, M, T, V>, ghost m: Mem<M, V>)
      returns (processed': nat, currentPosition': nat, state: S)
    requires delta != z && ssm as object != delta && ssm as object != z
    requires Ready(a, b, d, computed, ends, addrs, t, |m.ssm|) && t.k == k
    requires firstChunkIdx == FirstChunk(a.lastChunk, b) && nChunks == |ends| - 1 && chunk < nChunks
    requires Rounds(a, b, d, computed, ends, addrs, t, m, base, zBase, delta, z, ssm, chunk, processed, currentPosition,
                    before)
    modifies delta, z, ssm
    ensures Rounds(a, b, d, computed, ends, addrs, t, m, base, zBase, delta, z, ssm, chunk + 1, processed',
                   currentPosition', state)
  {
    ChunkFacts(ends, a.cuChunk, firstChunkIdx, a.blockSize, computed, |t.toks|, chunk);
    var chunkTokens := a.cuChunk[firstChunkIdx + chunk + 1] - a.cuChunk[firstChunkIdx + chunk];
    assert currentPosition + chunkTokens == computed + ends[chunk + 1] || nChunks == 1;
    state := ScanChunk(k, a, b, d, base, zBase, delta, z, ssm, chunk, nChunks, currentPosition, chunkTokens, processed,
                       before, a.blockIdxFirst[b] + chunk, t, m);
    processed' := processed + chunkTokens;
    currentPosition' := currentPosition + chunkTokens;
  }

  /** The chunk loop of the prefix-caching mode. */
  method ScanChunks<S, M, T, V>(k: Kernel<S, M, T, V>, a: Launch<T>, b: nat, d: nat, base: nat, zBase: nat,
                                delta: array<V>, z: array<V>, ssm: array<M>, start: S,
                                ghost computed: nat, ghost ends: seq<nat>, ghost addrs: seq<int>,
                                ghost t: Task<S, M, T, V>, ghost m: Mem<M, V>)
    requires delta != z && ssm as object != delta && ssm as object != z
    requires Ready(a, b, d, computed, ends, addrs, t, |m.ssm|) && t.k == k && t.start == start
    requires Buffers(t, a.hasZ, delta, z, m, base, zBase, 0) && ssm[..] == m.ssm
    modifies delta, z, ssm
    ensures Buffers(t, a.hasZ, delta, z, m, base, zBase, |t.toks|)
    ensures ssm[..] == StoreStates(t, m.ssm, addrs, a.blockIdxFirst[b], ends, |ends| - 1)
  {
    var firstChunkIdx := if b == 0 then 0 else a.lastChunk[b - 1] + 1;
    var nChunks := a.lastChunk[b] - firstChunkIdx + 1;
    var currentPosition: nat := InitialPosition(a, b, firstChunkIdx, nChunks);
    if nChunks > 1 {
      PositionExact(a, b, firstChunkIdx, nChunks, computed, ends, |t.toks|);
    }
    var state, processed := start, 0;
    for chunk := 0 to nChunks
      invariant Rounds(a, b, d, computed, ends, addrs, t, m, base, zBase, delta, z, ssm, chunk, processed,
                       currentPosition, state)
    {
      processed, currentPosition, state :=
        ChunkRound(k, a, b, d, base, zBase, delta, z, ssm, firstChunkIdx, chunk, nChunks, processed, currentPosition,
                   state, computed, ends, addrs, t, m);
    }
  }

  lemma ChunkFacts(ends: seq<nat>, cu: seq<nat>, firstChunk: int, size: nat, computed: nat, n: nat, c: nat)
    requires Schedule(ends, cu, firstChunk, size, computed, n) && c + 1 < |ends|
    ensures ends[c] <= ends[c + 1] <= n
    ensures cu[firstChunk + c + 1] == cu[firstChunk + c] + (ends[c + 1] - ends[c])
    ensures c + 2 < |ends| ==> EndsBlock(computed + ends[c + 1], size, computed / size + c)
  {
    assert ChunkFits(ends, cu, firstChunk, size, computed, n, c);
  }

  /** One (batch, dim) program. Whatever the buffers hold, it leaves exactly what `Exec` says. */
  method ScanProgram<S, M, T, V>(k: Kernel<S, M, T, V>, a: Launch<T>, b: nat, d: nat, ghost computed: nat,
                                 delta: array<V>, z: array<V>, ssm: array<M>)
    requires delta != z && ssm as object != delta && ssm as object != z
    requires InBounds(a, b, d, computed, delta.Length, z.Length, ssm.Length)
    modifies delta, z, ssm
    ensures Mem(delta[..], z[..], ssm[..]) == Exec(k, a, b, d, computed, old(Mem(delta[..], z[..], ssm[..])))
  {
    var loadSlot := LoadSlot(a, b);
    if (a.cacheEnabled || a.hasCacheIndices) && loadSlot == a.nullBlock {
      return;
    }
    var state := k.zero;
    if HasInit(a, b) {
      state := k.load(ssm[loadSlot * a.dim + d]);
    }
    if a.cacheEnabled {
      ScanCached(k, a, b, d, computed, delta, z, ssm, state);
    } else {
      ScanPlain(k, a, b, d, computed, delta, z, ssm, state);
    }
  }

  /** With a block cache: chunk by chunk. */
  method ScanCached<S, M, T, V>(k: Kernel<S, M, T, V>, a: Launch<T>, b: nat, d: nat, ghost computed: nat,
                                delta: array<V>, z: array<V>, ssm: array<M>, state: S)
    requires delta != z && ssm as object != delta && ssm as object != z
    requires InBounds(a, b, d, computed, delta.Length, z.Length, ssm.Length)
    requires !Skipped(a, b) && a.cacheEnabled && state == StartState(k, a, b, d, ssm[..])
    modifies delta, z, ssm
    ensures Mem(delta[..], z[..], ssm[..]) == Exec(k, a, b, d, computed, old(Mem(delta[..], z[..], ssm[..])))
  {
    var base, zBase := Base(a, b, d), ZBase(a, b, d);
    ghost var m := Mem(delta[..], z[..], ssm[..]);
    ghost var t := TaskOf(k, a, b, d, m);
    TaskReady(k, a, b, d, m, delta, z);
    CachedReady(k, a, b, d, computed, m);
    ScanChunks(k, a, b, d, base, zBase, delta, z, ssm, state, computed, Ends(a.blockSize, computed, SeqLen(a, b)),
               Addrs(a, b, d), t, m);
    ExecIs(k, a, b, d, computed, m, t, delta, z, ssm);
  }

  /** Without one: all tokens at once, and the state back into its slot. */
  method ScanPlain<S, M, T, V>(k: Kernel<S, M, T, V>, a: Launch<T>, b: nat, d: nat, ghost computed: nat,
                               delta: array<V>, z: array<V>, ssm: array<M>, start: S)
    requires delta != z && ssm as object != delta && ssm as object != z
    requires InBounds(a, b, d, computed, delta.Length, z.Length, ssm.Length)
    requires !Skipped(a, b) && !a.cacheEnabled && start == StartState(k, a, b, d, ssm[..])
    modifies delta, z, ssm
    ensures Mem(delta[..], z[..], ssm[..]) == Exec(k, a, b, d, computed, old(Mem(delta[..], z[..], ssm[..])))
  {
    var base, zBase := Base(a, b, d), ZBase(a, b, d);
    ghost var m := Mem(delta[..], z[..], ssm[..]);
    ghost var t := TaskOf(k, a, b, d, m);
    TaskReady(k, a, b, d, m, delta, z);
    var state := ScanTokens(k, a, b, d, base, zBase, delta, z, 0, SeqLen(a, b), start, t, m);
    ssm[LoadSlot(a, b) * a.dim + d] := k.save(state);
    ExecIs(k, a, b, d, computed, m, t, delta, z, ssm);
  }

  lemma CachedReady<S, M, T, V>(k: Kernel<S, M, T, V>, a: Launch<T>, b: nat, d: nat, computed: nat, m: Mem<M, V>)
    requires InBounds(a, b, d, computed, |m.delta|, |m.z|, |m.ssm|) && !Skipped(a, b) && a.cacheEnabled
    ensures Ready(a, b, d, computed, Ends(a.blockSize, computed, SeqLen(a, b)), Addrs(a, b, d), TaskOf(k, a, b, d, m),
                  |m.ssm|)
  {
    Scheduled(a, b, computed);
  }

  lemma TaskReady<S, M, T, V>(k: Kernel<S, M, T, V>, a: Launch<T>, b: nat, d: nat, m: Mem<M, V>, delta: array<V>,
                              z: array<V>)
    requires InBatch(a, b) && Base(a, b, d) + SeqLen(a, b) <= |m.delta|
        && (a.hasZ ==> ZBase(a, b, d) + SeqLen(a, b) <= |m.z|)
    requires 0 <= SlotAddr(a, d, LoadSlot(a, b)) < |m.ssm|
    requires delta[..] == m.delta && z[..] == m.z
    ensures var t := TaskOf(k, a, b, d, m);
            && t.k == k && (forall pos :: 0 <= pos < |t.toks| ==> t.toks[pos] == a.tok(b, d, pos))
            && Buffers(t, a.hasZ, delta, z, m, Base(a, b, d), ZBase(a, b, d), 0)
  {
  }

  lemma ExecIs<S, M, T, V>(k: Kernel<S, M, T, V>, a: Launch<T>, b: nat, d: nat, computed: nat, m: Mem<M, V>,
                           t: Task<S, M, T, V>, delta: array<V>, z: array<V>, ssm: array<M>)
    requires InBounds(a, b, d, computed, |m.delta|, |m.z|, |m.ssm|) && !Skipped(a, b)
    requires t == TaskOf(k, a, b, d, m)
    requires Buffers(t, a.hasZ, delta, z, m, Base(a, b, d), ZBase(a, b, d), |t.toks|)
    requires ssm[..] == if a.cacheEnabled
      then StoreStates(t, m.ssm, Addrs(a, b, d), a.blockIdxFirst[b], Ends(a.blockSize, computed, |t.toks|),
                       ChunkCount(a.blockSize, computed, |t.toks|))
      else m.ssm[SlotAddr(a, d, LoadSlot(a, b)) := k.save(StateAt(t, |t.toks|))]
    ensures Mem(delta[..], z[..], ssm[..]) == Exec(k, a, b, d, computed, m)
  {
    PasteDone(delta, m.delta, Base(a, b, d), t.ds, t.outs, |t.toks|);
    if a.hasZ {
      PasteDone(z, m.z, ZBase(a, b, d), t.zs, t.gates, |t.toks|);
    }
  }

  lemma PasteDone<V>(buf: array<V>, buf0: seq<V>, base: nat, before: seq<V>, after: seq<V>, n: nat)
    requires Overwritten(buf, buf0, base, before, after, n)
    requires before == buf0[base..base + |before|] && n == |after|
    ensures buf[..] == Paste(buf0, base, after)
  {
  }
}
