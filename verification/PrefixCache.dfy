/**
 Whole runs of the prefix cache for one dim: requests join (possibly sharing a block-aligned prefix of another one's
 blocks), get further blocks, are scheduled for any number of tokens at a time and are evicted, in any order. The slot
 of every block keeps the state of the scan at the end of that block.
 */
module PrefixCache {
  import opened Arith
  import opened ChunkMetadata
  import opened Recurrence
  import opened ScanKernel

  /** A request: its whole input, its block addresses, the tokens done (from `from` on by itself), the positions at
      which its scan resumed from the cache, and the outputs it produced, plain and gated. */
  datatype Req<!T, !V> = Req(toks: seq<T>, ds: seq<V>, zs: seq<V>, addrs: seq<int>, from: nat, done: nat,
                             cuts: set<nat>, outs: seq<V>, gates: seq<V>)

  datatype Cache<!M, !T, !V> = Cache(ssm: seq<M>, reqs: seq<Req<T, V>>)

  /** The scan of a request that resumes from stored states at `cuts`. */
  ghost function CutRun<S, M, T, V>(k: Kernel<S, M, T, V>, toks: seq<T>, ds: seq<V>, cuts: set<nat>, n: nat): S
    requires n <= |toks| == |ds|
    decreases n, 0
  {
    if n == 0 then k.zero else k.step(Resumed(k, toks, ds, cuts, n - 1), toks[n - 1], ds[n - 1])
  }

  /** The state from which token `n` is scanned. */
  ghost function Resumed<S, M, T, V>(k: Kernel<S, M, T, V>, toks: seq<T>, ds: seq<V>, cuts: set<nat>, n: nat): S
    requires n <= |toks| == |ds|
    decreases n, 1
  {
    var s := CutRun(k, toks, ds, cuts, n);
    if n in cuts then k.load(k.save(s)) else s
  }

  lemma {:induction false} CutRunAgree<S, M, T, V>(k: Kernel<S, M, T, V>, toks: seq<T>, ds: seq<V>, cuts: set<nat>,
                                                   toks': seq<T>, ds': seq<V>, cuts': set<nat>, n: nat)
    requires n <= |toks| == |ds| && n <= |toks'| == |ds'|
    requires toks[..n] == toks'[..n] && ds[..n] == ds'[..n]
    requires forall c :: 0 <= c < n ==> (c in cuts <==> c in cuts')
    ensures CutRun(k, toks, ds, cuts, n) == CutRun(k, toks', ds', cuts', n)
  {
    if n > 0 {
      assert toks[..n - 1] == toks[..n][..n - 1] == toks'[..n - 1];
      assert ds[..n - 1] == ds[..n][..n - 1] == ds'[..n - 1];
      assert toks[n - 1] == toks[..n][n - 1] == toks'[n - 1];
      assert ds[n - 1] == ds[..n][n - 1] == ds'[n - 1];
      CutRunAgree(k, toks, ds, cuts, toks', ds', cuts', n - 1);
    }
  }

  /** If what is stored at the cuts can be read back exactly, the cuts leave no trace. */
  lemma {:induction false} CutRunExact<S, M, T, V>(k: Kernel<S, M, T, V>, toks: seq<T>, ds: seq<V>, cuts: set<nat>,
                                                   n: nat)
    requires n <= |toks| == |ds|
    requires forall c :: c in cuts && c < n ==>
      k.load(k.save(Run(k, k.zero, toks, ds, c))) == Run(k, k.zero, toks, ds, c)
    ensures CutRun(k, toks, ds, cuts, n) == Run(k, k.zero, toks, ds, n)
  {
    if n > 0 {
      CutRunExact(k, toks, ds, cuts, n - 1);
    }
  }

  /** One call scans the next tokens of the resumed run. */
  lemma {:induction false} CallContinues<S, M, T, V>(k: Kernel<S, M, T, V>, toks: seq<T>, ds: seq<V>, cuts: set<nat>,
                                                     p: nat, n: nat, i: nat)
    requires i <= n && p + n <= |toks| == |ds|
    requires forall c :: p < c < p + n ==> c !in cuts
    ensures i > 0 ==>
      Run(k, Resumed(k, toks, ds, cuts, p), toks[p..p + n], ds[p..p + n], i) == CutRun(k, toks, ds, cuts, p + i)
    decreases i
  {
    if i > 0 {
      CallContinues(k, toks, ds, cuts, p, n, i - 1);
    }
  }

  // --- The scheduler's view ------------------------------------------------------------------------------------------

  /** The state at position `n` of the request, as stored. */
  ghost function StoredAt<S, M, T, V>(k: Kernel<S, M, T, V>, r: Req<T, V>, n: nat): M
    requires n <= |r.toks| == |r.ds|
  {
    k.save(CutRun(k, r.toks, r.ds, r.cuts, n))
  }

  /** Block `blk` of the request holds the state at its end, or at the request's end if it is the last one. */
  ghost predicate BlockHolds<S, M, T, V>(k: Kernel<S, M, T, V>, size: nat, ssm: seq<M>, r: Req<T, V>, blk: nat)
    requires size > 0 && r.done <= |r.toks| == |r.ds|
  {
    && blk < |r.addrs| && 0 <= r.addrs[blk] < |ssm|
    && ssm[r.addrs[blk]] == StoredAt(k, r, Min((blk + 1) * size, r.done))
  }

  ghost predicate ReqOk<S, M, T, V>(k: Kernel<S, M, T, V>, size: nat, ssm: seq<M>, r: Req<T, V>) {
    && size > 0 && r.from <= r.done <= |r.toks| == |r.ds| == |r.zs|
    && (forall b :: 0 <= b < |r.addrs| ==> 0 <= r.addrs[b] < |ssm|)
    && (forall b, b' :: 0 <= b < b' < |r.addrs| ==> r.addrs[b] != r.addrs[b'])
    && (forall c :: c in r.cuts ==> 0 < c < r.done)
    && (forall blk {:trigger BlockHolds(k, size, ssm, r, blk)} :: 0 <= blk && blk * size < r.done ==>
        BlockHolds(k, size, ssm, r, blk))
    && |r.outs| == |r.gates| == r.done - r.from
    && (forall i {:trigger OutHolds(k, r, i)} :: 0 <= i < |r.outs| ==> OutHolds(k, r, i))
  }

  /** Output i of the request and its gated form are those of the resumed scan. */
  ghost predicate OutHolds<S, M, T, V>(k: Kernel<S, M, T, V>, r: Req<T, V>, i: nat)
    requires i < |r.outs| == |r.gates| && r.from + |r.outs| <= |r.toks| == |r.ds| == |r.zs|
  {
    var o := k.out(CutRun(k, r.toks, r.ds, r.cuts, r.from + i + 1), r.toks[r.from + i]);
    r.outs[i] == k.castOut(o) && r.gates[i] == k.gate(o, r.zs[r.from + i])
  }

  /** Requests share a block only at the same index and only once both have filled it. */
  ghost predicate Shared<T, V>(size: nat, r: Req<T, V>, q: Req<T, V>) {
    forall b, b' :: 0 <= b < |r.addrs| && 0 <= b' < |q.addrs| && r.addrs[b] == q.addrs[b'] ==>
      b == b' && (b + 1) * size <= r.done && (b + 1) * size <= q.done
  }

  ghost predicate Inv<S, M, T, V>(k: Kernel<S, M, T, V>, size: nat, s: Cache<M, T, V>) {
    && (forall i :: 0 <= i < |s.reqs| ==> ReqOk(k, size, s.ssm, s.reqs[i]))
    && (forall i, j :: 0 <= i < |s.reqs| && 0 <= j < |s.reqs| && i != j ==> Shared(size, s.reqs[i], s.reqs[j]))
  }

  /** The state a call starts from, read through the block table. */
  ghost function CallStart<S, M, T, V>(k: Kernel<S, M, T, V>, size: nat, ssm: seq<M>, r: Req<T, V>): S
    requires size > 0
    requires r.done > 0 ==>
      LastComputedBlock(size, r.done) < |r.addrs| && 0 <= r.addrs[LastComputedBlock(size, r.done)] < |ssm|
  {
    if r.done > 0 then k.load(ssm[r.addrs[LastComputedBlock(size, r.done)]]) else k.zero
  }

  /** The kernel's task for the next `n` tokens of a request. */
  ghost function CallTask<S, M, T, V>(k: Kernel<S, M, T, V>, size: nat, ssm: seq<M>, r: Req<T, V>,
                                      n: nat): (t: Task<S, M, T, V>)
    requires size > 0 && r.done + n <= |r.toks| == |r.ds| == |r.zs|
    requires r.done > 0 ==>
      LastComputedBlock(size, r.done) < |r.addrs| && 0 <= r.addrs[LastComputedBlock(size, r.done)] < |ssm|
    ensures |t.toks| == |t.ds| == |t.outs| == |t.gates| == n
  {
    var s, to := CallStart(k, size, ssm, r), r.done + n;
    var toks, ds, zs := r.toks[r.done..to], r.ds[r.done..to], r.zs[r.done..to];
    Task(k, s, toks, ds, zs, Outputs(k, s, toks, ds), GatedOutputs(k, s, toks, ds, zs))
  }

  ghost predicate CanCall<T, V>(size: nat, entries: nat, r: Req<T, V>, n: nat) {
    && size > 0 && n > 0 && r.done + n <= |r.toks| == |r.ds| == |r.zs|
    && r.done + n <= |r.addrs| * size
    && (forall b :: 0 <= b < |r.addrs| ==> 0 <= r.addrs[b] < entries)
  }

  lemma BlocksExist<T, V>(size: nat, entries: nat, r: Req<T, V>, n: nat)
    requires CanCall(size, entries, r, n)
    ensures 0 <= r.done / size
        && r.done / size + ChunkCount(size, r.done, n) == (r.done + n - 1) / size + 1 <= |r.addrs|
    ensures r.done > 0 ==> LastComputedBlock(size, r.done) < |r.addrs|
  {
    DivBounds(r.done, size);
    DivBounds(r.done + n - 1, size);
    DivMonotone(r.done, r.done + n - 1, size);
    if |r.addrs| <= (r.done + n - 1) / size {
      MulMonotone(|r.addrs|, (r.done + n - 1) / size, size);
    }
    if r.done > 0 && |r.addrs| <= LastComputedBlock(size, r.done) {
      MulMonotone(|r.addrs|, LastComputedBlock(size, r.done), size);
    }
  }

  /** The cache and the request after a call. */
  ghost function CallSsm<S, M, T, V>(k: Kernel<S, M, T, V>, size: nat, ssm: seq<M>, r: Req<T, V>, n: nat): (r': seq<M>)
    requires CanCall(size, |ssm|, r, n)
    ensures |r'| == |ssm|
  {
    BlocksExist(size, |ssm|, r, n);
    StoreStates(CallTask(k, size, ssm, r, n), ssm, r.addrs, r.done / size, Ends(size, r.done, n),
                ChunkCount(size, r.done, n))
  }

  ghost function CallReq<S, M, T, V>(k: Kernel<S, M, T, V>, size: nat, ssm: seq<M>, r: Req<T, V>, n: nat): Req<T, V>
    requires CanCall(size, |ssm|, r, n)
  {
    BlocksExist(size, |ssm|, r, n);
    r.(done := r.done + n, cuts := if r.done > 0 then r.cuts + {r.done} else r.cuts,
       outs := r.outs + CallTask(k, size, ssm, r, n).outs, gates := r.gates + CallTask(k, size, ssm, r, n).gates)
  }

  // --- A call keeps the cache ----------------------------------------------------------------------------------------

  lemma {:induction false} StoreStatesRead<S, M, T, V>(t: Task<S, M, T, V>, ssm: seq<M>, addrs: seq<int>, first: nat,
                                                       ends: seq<nat>, c: nat, i: nat)
    requires |t.toks| == |t.ds| && i < c < |ends| && first + c <= |addrs|
    requires forall i :: 0 <= i < |ends| ==> ends[i] <= |t.toks|
    requires forall i :: first <= i < first + c ==> 0 <= addrs[i] < |ssm|
    requires forall b, b' :: first <= b < b' < first + c ==> addrs[b] != addrs[b']
    ensures StoreStates(t, ssm, addrs, first, ends, c)[addrs[first + i]] == t.k.save(StateAt(t, ends[i + 1]))
  {
    if i < c - 1 {
      assert addrs[first + i] != addrs[first + c - 1];
      StoreStatesRead(t, ssm, addrs, first, ends, c - 1, i);
    }
  }

  lemma {:induction false} StoreStatesKeep<S, M, T, V>(t: Task<S, M, T, V>, ssm: seq<M>, addrs: seq<int>, first: nat,
                                                       ends: seq<nat>, c: nat, x: nat)
    requires |t.toks| == |t.ds| && c < |ends| && first + c <= |addrs| && x < |ssm|
    requires forall i :: 0 <= i < |ends| ==> ends[i] <= |t.toks|
    requires forall i :: first <= i < first + c ==> 0 <= addrs[i] < |ssm| && addrs[i] != x
    ensures StoreStates(t, ssm, addrs, first, ends, c)[x] == ssm[x]
  {
    if c > 0 {
      StoreStatesKeep(t, ssm, addrs, first, ends, c - 1, x);
    }
  }

  /** The entries of the scheduled blocks are all different; whatever else is in the block table does not matter. */
  ghost predicate OwnEntries<T>(a: Launch<T>, b: nat, d: nat)
    requires InBatch(a, b) && a.cacheEnabled && b < |a.blockIdxFirst| && b < |a.blockIdxLast|
  {
    var addrs := Addrs(a, b, d);
    forall i, j :: a.blockIdxFirst[b] <= i < j <= a.blockIdxLast[b] && 0 <= i && j < |addrs| ==> addrs[i] != addrs[j]
  }

  /** What a call stores, with the facts its slots need. */
  lemma ExecStates<S, M, T, V>(k: Kernel<S, M, T, V>, a: Launch<T>, b: nat, d: nat, computed: nat, m: Mem<M, V>)
    requires InBounds(a, b, d, computed, |m.delta|, |m.z|, |m.ssm|) && !Skipped(a, b) && a.cacheEnabled
    ensures var n, size, addrs := SeqLen(a, b), a.blockSize, Addrs(a, b, d);
            && 0 <= computed / size && computed / size + ChunkCount(size, computed, n) <= |addrs|
            && (forall i :: computed / size <= i < computed / size + ChunkCount(size, computed, n) ==>
                0 <= addrs[i] < |m.ssm|)
            && Exec(k, a, b, d, computed, m).ssm ==
                 StoreStates(TaskOf(k, a, b, d, m), m.ssm, addrs, computed / size, Ends(size, computed, n),
                             ChunkCount(size, computed, n))
  {
    DivBounds(computed, a.blockSize);
  }

  /** After a kernel call the slot of every block from the first to the last scheduled one holds the state after exactly
      the tokens up to the end of that block, or all tokens if it is the last. */
  lemma SlotsAfterCall<S, M, T, V>(k: Kernel<S, M, T, V>, a: Launch<T>, b: nat, d: nat, computed: nat, m: Mem<M, V>,
                                   blk: nat)
    requires InBounds(a, b, d, computed, |m.delta|, |m.z|, |m.ssm|) && !Skipped(a, b) && a.cacheEnabled
    requires OwnEntries(a, b, d) && a.blockIdxFirst[b] <= blk <= a.blockIdxLast[b]
    ensures computed < Min((blk + 1) * a.blockSize, computed + SeqLen(a, b))
    ensures Exec(k, a, b, d, computed, m).ssm[SlotAddr(a, d, a.cacheIndices[b][blk])]
         == k.save(StateAt(TaskOf(k, a, b, d, m), Min((blk + 1) * a.blockSize, computed + SeqLen(a, b)) - computed))
  {
    ExecStates(k, a, b, d, computed, m);
    PlannedSlot(TaskOf(k, a, b, d, m), a, b, d, computed, m.ssm, Exec(k, a, b, d, computed, m).ssm, blk);
  }

  lemma PlannedSlot<S, M, T, V>(t: Task<S, M, T, V>, a: Launch<T>, b: nat, d: nat, computed: nat, ssm: seq<M>,
                                ssm': seq<M>, blk: nat)
    requires InBatch(a, b) && a.cacheEnabled && Planned(a, b, computed) && |t.toks| == |t.ds| == SeqLen(a, b)
    requires computed / a.blockSize + ChunkCount(a.blockSize, computed, SeqLen(a, b)) <= |Addrs(a, b, d)|
    requires var first := computed / a.blockSize;
             forall i :: first <= i < first + ChunkCount(a.blockSize, computed, SeqLen(a, b)) ==>
               0 <= Addrs(a, b, d)[i] < |ssm|
    requires OwnEntries(a, b, d) && a.blockIdxFirst[b] <= blk <= a.blockIdxLast[b]
    requires ssm' == StoreStates(t, ssm, Addrs(a, b, d), computed / a.blockSize,
                                 Ends(a.blockSize, computed, SeqLen(a, b)),
                                 ChunkCount(a.blockSize, computed, SeqLen(a, b)))
    ensures computed < Min((blk + 1) * a.blockSize, computed + SeqLen(a, b))
    ensures 0 <= SlotAddr(a, d, a.cacheIndices[b][blk]) < |ssm'|
    ensures ssm'[SlotAddr(a, d, a.cacheIndices[b][blk])]
         == t.k.save(StateAt(t, Min((blk + 1) * a.blockSize, computed + SeqLen(a, b)) - computed))
  {
    var addrs := Addrs(a, b, d);
    SlotStored(t, ssm, ssm', addrs, a.blockSize, computed, SeqLen(a, b), blk);
    assert addrs[blk] == SlotAddr(a, d, a.cacheIndices[b][blk]);
  }

  lemma SlotStored<S, M, T, V>(t: Task<S, M, T, V>, ssm: seq<M>, ssm': seq<M>, addrs: seq<int>, size: nat,
                               computed: nat, n: nat, blk: nat)
    requires size > 0 && |t.toks| == |t.ds| == n > 0 && 0 <= computed / size <= blk <= (computed + n - 1) / size
    requires computed / size + ChunkCount(size, computed, n) <= |addrs|
    requires forall i :: computed / size <= i < computed / size + ChunkCount(size, computed, n) ==>
        0 <= addrs[i] < |ssm|
    requires forall i, j :: computed / size <= i < j <= (computed + n - 1) / size && j < |addrs| ==>
        addrs[i] != addrs[j]
    requires ssm' == StoreStates(t, ssm, addrs, computed / size, Ends(size, computed, n), ChunkCount(size, computed, n))
    ensures blk < |addrs| && 0 <= addrs[blk] < |ssm'| && computed < Min((blk + 1) * size, computed + n)
    ensures ssm'[addrs[blk]] == t.k.save(StateAt(t, Min((blk + 1) * size, computed + n) - computed))
  {
    var first := computed / size;
    LastBlockStarts(size, computed, n, blk);
    BlockEnd(size, computed, n, blk);
    StoreStatesRead(t, ssm, addrs, first, Ends(size, computed, n), ChunkCount(size, computed, n), blk - first);
  }

  lemma LastBlockStarts(size: nat, computed: nat, n: nat, blk: nat)
    requires size > 0 && n > 0 && blk <= (computed + n - 1) / size
    ensures blk * size < computed + n
  {
    DivBounds(computed + n - 1, size);
    MulMonotone(blk, (computed + n - 1) / size, size);
  }

  /** Every other cache entry is as it was. */
  lemma OtherSlotsKept<S, M, T, V>(k: Kernel<S, M, T, V>, a: Launch<T>, b: nat, d: nat, computed: nat, m: Mem<M, V>,
                                   x: nat)
    requires InBounds(a, b, d, computed, |m.delta|, |m.z|, |m.ssm|) && !Skipped(a, b) && a.cacheEnabled && x < |m.ssm|
    requires forall blk :: a.blockIdxFirst[b] <= blk <= a.blockIdxLast[b] ==>
        SlotAddr(a, d, a.cacheIndices[b][blk]) != x
    ensures Exec(k, a, b, d, computed, m).ssm[x] == m.ssm[x]
  {
    var n := SeqLen(a, b);
    StoreStatesKeep(TaskOf(k, a, b, d, m), m.ssm, Addrs(a, b, d), a.blockIdxFirst[b], Ends(a.blockSize, computed, n),
                    ChunkCount(a.blockSize, computed, n), x);
  }

  ghost function NewCuts<T, V>(r: Req<T, V>): set<nat> {
    if r.done > 0 then r.cuts + {r.done} else r.cuts
  }

  /** The slot of the last computed block holds the state after exactly the computed tokens. */
  lemma StartIsResumed<S, M, T, V>(k: Kernel<S, M, T, V>, size: nat, ssm: seq<M>, r: Req<T, V>, n: nat)
    requires ReqOk(k, size, ssm, r) && CanCall(size, |ssm|, r, n)
    ensures r.done > 0 ==> LastComputedBlock(size, r.done) < |r.addrs|
    ensures CallStart(k, size, ssm, r) == Resumed(k, r.toks, r.ds, NewCuts(r), r.done)
  {
    BlocksExist(size, |ssm|, r, n);
    if r.done > 0 {
      var blk := LastComputedBlock(size, r.done);
      assert BlockHolds(k, size, ssm, r, blk);
      CutRunAgree(k, r.toks, r.ds, r.cuts, r.toks, r.ds, NewCuts(r), r.done);
    }
  }

  /** After `i` more tokens the call's state is that of the resumed run. */
  lemma CallStates<S, M, T, V>(k: Kernel<S, M, T, V>, size: nat, ssm: seq<M>, r: Req<T, V>, n: nat, i: nat)
    requires ReqOk(k, size, ssm, r) && CanCall(size, |ssm|, r, n) && 0 < i <= n
    ensures r.done > 0 ==> LastComputedBlock(size, r.done) < |r.addrs|
    ensures StateAt(CallTask(k, size, ssm, r, n), i) == CutRun(k, r.toks, r.ds, NewCuts(r), r.done + i)
  {
    StartIsResumed(k, size, ssm, r, n);
    CallContinues(k, r.toks, r.ds, NewCuts(r), r.done, n, i);
  }

  /** What chunk `i` of the call stores. */
  lemma ChunkStored<S, M, T, V>(k: Kernel<S, M, T, V>, size: nat, ssm: seq<M>, r: Req<T, V>, n: nat, i: nat, e: nat)
    requires ReqOk(k, size, ssm, r) && CanCall(size, |ssm|, r, n)
    requires i < ChunkCount(size, r.done, n) && 0 < e == Done(size, r.done, n, i + 1) <= n
    ensures 0 <= r.done / size && r.done / size + i < |r.addrs|
    ensures CallSsm(k, size, ssm, r, n)[r.addrs[r.done / size + i]]
        == k.save(CutRun(k, r.toks, r.ds, NewCuts(r), r.done + e))
  {
    BlocksExist(size, |ssm|, r, n);
    CallStates(k, size, ssm, r, n, e);
    StoreStatesRead(CallTask(k, size, ssm, r, n), ssm, r.addrs, r.done / size, Ends(size, r.done, n),
                    ChunkCount(size, r.done, n), i);
  }

  /** A block the call fills. */
  lemma NewBlock<S, M, T, V>(k: Kernel<S, M, T, V>, size: nat, ssm: seq<M>, r: Req<T, V>, n: nat, blk: nat)
    requires ReqOk(k, size, ssm, r) && CanCall(size, |ssm|, r, n)
    requires r.done / size <= blk && blk * size < r.done + n
    ensures BlockHolds(k, size, CallSsm(k, size, ssm, r, n), CallReq(k, size, ssm, r, n), blk)
  {
    BlockEnd(size, r.done, n, blk);
    var i := blk - r.done / size;
    ChunkStored(k, size, ssm, r, n, i, Done(size, r.done, n, i + 1));
  }

  /** The chunk that closes block `blk`. */
  lemma BlockEnd(size: nat, done: nat, n: nat, blk: nat)
    requires size > 0 && n > 0 && done / size <= blk && blk * size < done + n
    ensures blk - done / size < ChunkCount(size, done, n)
    ensures 0 < Done(size, done, n, blk - done / size + 1) == Min((blk + 1) * size, done + n) - done
  {
    DivBounds(done + n - 1, size);
    if (done + n - 1) / size < blk {
      MulMonotone((done + n - 1) / size + 1, blk, size);
    }
    DivBounds(done, size);
    MulMonotone(done / size + 1, blk + 1, size);
  }

  /** A block filled before the call. */
  lemma OldBlock<S, M, T, V>(k: Kernel<S, M, T, V>, size: nat, ssm: seq<M>, r: Req<T, V>, n: nat, blk: nat)
    requires ReqOk(k, size, ssm, r) && CanCall(size, |ssm|, r, n)
    requires blk < r.done / size
    ensures BlockHolds(k, size, CallSsm(k, size, ssm, r, n), CallReq(k, size, ssm, r, n), blk)
  {
    BlocksExist(size, |ssm|, r, n);
    var first, c, t := r.done / size, ChunkCount(size, r.done, n), CallTask(k, size, ssm, r, n);
    DivBounds(r.done, size);
    MulMonotone(blk + 1, first, size);
    assert (blk + 1) * size == blk * size + size;
    assert BlockHolds(k, size, ssm, r, blk);
    StoreStatesKeep(t, ssm, r.addrs, first, Ends(size, r.done, n), c, r.addrs[blk]);
    CutRunAgree(k, r.toks, r.ds, r.cuts, r.toks, r.ds, NewCuts(r), (blk + 1) * size);
  }

  /** The outputs so far, plain and gated, are those of the resumed run. */
  lemma CallOutputs<S, M, T, V>(k: Kernel<S, M, T, V>, size: nat, ssm: seq<M>, r: Req<T, V>, n: nat, i: nat)
    requires ReqOk(k, size, ssm, r) && CanCall(size, |ssm|, r, n)
    requires i < r.done + n - r.from
    ensures var r' := CallReq(k, size, ssm, r, n);
            |r'.outs| == |r'.gates| == r.done + n - r.from && OutHolds(k, r', i)
  {
    BlocksExist(size, |ssm|, r, n);
    if i < |r.outs| {
      assert OutHolds(k, r, i);
      CutRunAgree(k, r.toks, r.ds, r.cuts, r.toks, r.ds, NewCuts(r), r.from + i + 1);
    } else {
      NewOutput(k, size, ssm, r, n, i - |r.outs|);
    }
  }

  /** Output j of the call. */
  lemma NewOutput<S, M, T, V>(k: Kernel<S, M, T, V>, size: nat, ssm: seq<M>, r: Req<T, V>, n: nat, j: nat)
    requires ReqOk(k, size, ssm, r) && CanCall(size, |ssm|, r, n) && j < n
    ensures r.done > 0 ==> LastComputedBlock(size, r.done) < |r.addrs|
    ensures var t, o := CallTask(k, size, ssm, r, n),
        k.out(CutRun(k, r.toks, r.ds, NewCuts(r), r.done + j + 1), r.toks[r.done + j]);
            t.outs[j] == k.castOut(o) && t.gates[j] == k.gate(o, r.zs[r.done + j])
  {
    CallStates(k, size, ssm, r, n, j + 1);
    var t := CallTask(k, size, ssm, r, n);
    assert t.outs[j] == OutAt(k, t.start, t.toks, t.ds, j) && t.gates[j] == GateAt(k, t.start, t.toks, t.ds, t.zs, j);
  }

  lemma CallOk<S, M, T, V>(k: Kernel<S, M, T, V>, size: nat, ssm: seq<M>, r: Req<T, V>, n: nat)
    requires ReqOk(k, size, ssm, r) && CanCall(size, |ssm|, r, n)
    ensures ReqOk(k, size, CallSsm(k, size, ssm, r, n), CallReq(k, size, ssm, r, n))
  {
    var ssm', r' := CallSsm(k, size, ssm, r, n), CallReq(k, size, ssm, r, n);
    forall blk | 0 <= blk && blk * size < r'.done
      ensures BlockHolds(k, size, ssm', r', blk)
    {
      if blk < r.done / size {
        OldBlock(k, size, ssm, r, n, blk);
      } else {
        NewBlock(k, size, ssm, r, n, blk);
      }
    }
    forall i | 0 <= i < r'.done - r'.from
      ensures |r'.outs| == |r'.gates| == r'.done - r'.from && OutHolds(k, r', i)
    {
      CallOutputs(k, size, ssm, r, n, i);
    }
  }

  lemma Unfilled(size: nat, done: nat, b: nat)
    requires size > 0 && done / size <= b
    ensures done < (b + 1) * size
  {
    DivBounds(done, size);
    MulMonotone(done / size + 1, b + 1, size);
  }

  /** A call of another request leaves this one's blocks alone. */
  lemma CallKeepsOther<S, M, T, V>(k: Kernel<S, M, T, V>, size: nat, ssm: seq<M>, r: Req<T, V>, n: nat, q: Req<T, V>)
    requires ReqOk(k, size, ssm, r) && ReqOk(k, size, ssm, q) && CanCall(size, |ssm|, r, n) && Shared(size, r, q)
    ensures ReqOk(k, size, CallSsm(k, size, ssm, r, n), q)
  {
    BlocksExist(size, |ssm|, r, n);
    var ssm', first, c := CallSsm(k, size, ssm, r, n), r.done / size, ChunkCount(size, r.done, n);
    forall blk | 0 <= blk && blk * size < q.done
      ensures BlockHolds(k, size, ssm', q, blk)
    {
      assert BlockHolds(k, size, ssm, q, blk);
      forall b | first <= b < first + c
        ensures r.addrs[b] != q.addrs[blk]
      {
        Unfilled(size, r.done, b);
      }
      StoreStatesKeep(CallTask(k, size, ssm, r, n), ssm, r.addrs, first, Ends(size, r.done, n), c, q.addrs[blk]);
    }
  }

  // --- Runs of the scheduler -----------------------------------------------------------------------------------------

  datatype Event<!T, !V> =
    | Call(i: nat, n: nat)
    | Join(src: nat, blocks: nat, toks: seq<T>, ds: seq<V>, zs: seq<V>, addrs: seq<int>)
    | Grow(i: nat, more: seq<int>)
    | Evict(i: nat)

  /** New block addresses: distinct, in range, in nobody's table. */
  ghost predicate FreshAddrs<M, T, V>(s: Cache<M, T, V>, addrs: seq<int>) {
    && (forall b :: 0 <= b < |addrs| ==> 0 <= addrs[b] < |s.ssm|)
    && (forall b, b' :: 0 <= b < b' < |addrs| ==> addrs[b] != addrs[b'])
    && (forall i, b :: 0 <= i < |s.reqs| && 0 <= b < |addrs| ==> addrs[b] !in s.reqs[i].addrs)
  }

  /** The new request starts with the same tokens, and the same blocks, as `q`, which has filled those blocks. */
  ghost predicate SamePrefix<T, V>(size: nat, q: Req<T, V>, blocks: nat, toks: seq<T>, ds: seq<V>, addrs: seq<int>) {
    && blocks <= |addrs| && blocks <= |q.addrs| && addrs[..blocks] == q.addrs[..blocks]
    && blocks * size <= q.done <= |q.toks| == |q.ds| && blocks * size <= |toks| == |ds|
    && toks[..blocks * size] == q.toks[..blocks * size] && ds[..blocks * size] == q.ds[..blocks * size]
  }

  ghost function JoinReq<T, V>(size: nat, cuts: set<nat>, blocks: nat, toks: seq<T>, ds: seq<V>, zs: seq<V>,
                               addrs: seq<int>): Req<T, V> {
    Req(toks, ds, zs, addrs, blocks * size, blocks * size, set c | c in cuts && c < blocks * size, [], [])
  }

  ghost predicate Next<S, M, T, V>(k: Kernel<S, M, T, V>, size: nat, s: Cache<M, T, V>, s': Cache<M, T, V>,
                                   e: Event<T, V>) {
    match e
    case Call(i, n) =>
      && i < |s.reqs| && CanCall(size, |s.ssm|, s.reqs[i], n)
      && s' == Cache(CallSsm(k, size, s.ssm, s.reqs[i], n), s.reqs[i := CallReq(k, size, s.ssm, s.reqs[i], n)])
    case Join(src, blocks, toks, ds, zs, addrs) =>
      && |toks| == |ds| == |zs| && blocks <= |addrs| && FreshAddrs(s, addrs[blocks..])
      && (blocks > 0 ==> src < |s.reqs| && SamePrefix(size, s.reqs[src], blocks, toks, ds, addrs))
      && s' == s.(reqs := s.reqs + [JoinReq(size, if blocks > 0 then s.reqs[src].cuts
                                            else {}, blocks, toks, ds, zs, addrs)])
    case Grow(i, more) =>
      && i < |s.reqs| && FreshAddrs(s, more)
      && s' == s.(reqs := s.reqs[i := s.reqs[i].(addrs := s.reqs[i].addrs + more)])
    case Evict(i) =>
      && i < |s.reqs|
      && s' == s.(reqs := s.reqs[..i] + s.reqs[i + 1..])
  }

  lemma CallInv<S, M, T, V>(k: Kernel<S, M, T, V>, size: nat, s: Cache<M, T, V>, s': Cache<M, T, V>, e: Event<T, V>)
    requires Inv(k, size, s) && e.Call? && Next(k, size, s, s', e)
    ensures Inv(k, size, s')
  {
    var r, r' := s.reqs[e.i], s'.reqs[e.i];
    CallOk(k, size, s.ssm, r, e.n);
    forall j | 0 <= j < |s.reqs| && j != e.i
      ensures ReqOk(k, size, s'.ssm, s.reqs[j]) && Shared(size, r', s.reqs[j]) && Shared(size, s.reqs[j], r')
    {
      CallKeepsOther(k, size, s.ssm, r, e.n, s.reqs[j]);
      StillShared(size, r, r', s.reqs[j]);
    }
    Reassemble(k, size, s, s', e.i);
  }

  lemma StillShared<T, V>(size: nat, r: Req<T, V>, r': Req<T, V>, q: Req<T, V>)
    requires Shared(size, r, q) && Shared(size, q, r) && r'.addrs == r.addrs && r.done <= r'.done
    ensures Shared(size, r', q) && Shared(size, q, r')
  {
  }

  /** The invariant holds again once it holds for the request that changed. */
  lemma Reassemble<S, M, T, V>(k: Kernel<S, M, T, V>, size: nat, s: Cache<M, T, V>, s': Cache<M, T, V>, i: nat)
    requires Inv(k, size, s) && i < |s.reqs| == |s'.reqs| && ReqOk(k, size, s'.ssm, s'.reqs[i])
    requires forall j :: 0 <= j < |s.reqs| && j != i ==>
      s'.reqs[j] == s.reqs[j] && ReqOk(k, size, s'.ssm, s.reqs[j]) && Shared(size, s'.reqs[i], s.reqs[j])
          && Shared(size, s.reqs[j], s'.reqs[i])
    ensures Inv(k, size, s')
  {
  }

  /** The shared blocks already hold what the new request needs. */
  lemma JoinOk<S, M, T, V>(k: Kernel<S, M, T, V>, size: nat, s: Cache<M, T, V>, q: Req<T, V>, blocks: nat,
                           toks: seq<T>, ds: seq<V>, zs: seq<V>, addrs: seq<int>)
    requires |zs| == |toks| && ReqOk(k, size, s.ssm, q) && blocks > 0 && SamePrefix(size, q, blocks, toks, ds, addrs)
    requires FreshAddrs(s, addrs[blocks..]) && q in s.reqs
    ensures ReqOk(k, size, s.ssm, JoinReq(size, q.cuts, blocks, toks, ds, zs, addrs))
  {
    var r := JoinReq(size, q.cuts, blocks, toks, ds, zs, addrs);
    assert forall b :: 0 <= b < blocks ==> addrs[b] == addrs[..blocks][b] == q.addrs[b];
    forall b | blocks <= b < |addrs|
      ensures 0 <= addrs[b] < |s.ssm| && addrs[b] !in q.addrs
    {
      assert addrs[b] == addrs[blocks..][b - blocks];
    }
    forall b, b' | 0 <= b < b' < |addrs|
      ensures addrs[b] != addrs[b']
    {
      if blocks <= b {
        assert addrs[b] == addrs[blocks..][b - blocks] && addrs[b'] == addrs[blocks..][b' - blocks];
      }
    }
    forall blk | 0 <= blk && blk * size < r.done
      ensures BlockHolds(k, size, s.ssm, r, blk)
    {
      JoinBlock(k, size, s.ssm, q, blocks, toks, ds, zs, addrs, blk);
    }
  }

  lemma JoinBlock<S, M, T, V>(k: Kernel<S, M, T, V>, size: nat, ssm: seq<M>, q: Req<T, V>, blocks: nat,
                              toks: seq<T>, ds: seq<V>, zs: seq<V>, addrs: seq<int>, blk: nat)
    requires ReqOk(k, size, ssm, q) && SamePrefix(size, q, blocks, toks, ds, addrs)
    requires blk * size < blocks * size
    ensures BlockHolds(k, size, ssm, JoinReq(size, q.cuts, blocks, toks, ds, zs, addrs), blk)
  {
    var r := JoinReq(size, q.cuts, blocks, toks, ds, zs, addrs);
    if blocks <= blk {
      MulMonotone(blocks, blk, size);
    }
    MulMonotone(blk + 1, blocks, size);
    assert (blk + 1) * size == blk * size + size;
    assert BlockHolds(k, size, ssm, q, blk);
    assert addrs[blk] == addrs[..blocks][blk] == q.addrs[blk];
    var n := (blk + 1) * size;
    assert toks[..n] == toks[..blocks * size][..n] == q.toks[..n];
    assert ds[..n] == ds[..blocks * size][..n] == q.ds[..n];
    CutRunAgree(k, toks, ds, r.cuts, q.toks, q.ds, q.cuts, n);
  }

  lemma JoinShared<M, T, V>(size: nat, s: Cache<M, T, V>, q: Req<T, V>, x: Req<T, V>, blocks: nat,
                              toks: seq<T>, ds: seq<V>, zs: seq<V>, addrs: seq<int>)
    requires size > 0 && q in s.reqs && x in s.reqs && (q == x || Shared(size, q, x))
    requires forall b, b' :: 0 <= b < b' < |q.addrs| ==> q.addrs[b] != q.addrs[b']
    requires SamePrefix(size, q, blocks, toks, ds, addrs) && FreshAddrs(s, addrs[blocks..])
    ensures Shared(size, JoinReq(size, q.cuts, blocks, toks, ds, zs, addrs), x)
    ensures Shared(size, x, JoinReq(size, q.cuts, blocks, toks, ds, zs, addrs))
  {
    forall b | blocks <= b < |addrs|
      ensures addrs[b] !in x.addrs
    {
      assert addrs[b] == addrs[blocks..][b - blocks];
    }
    forall b, b' | 0 <= b < |addrs| && 0 <= b' < |x.addrs| && addrs[b] == x.addrs[b']
      ensures b == b' && (b + 1) * size <= blocks * size && (b + 1) * size <= x.done
    {
      if blocks <= b {
        assert false;
      }
      assert addrs[b] == addrs[..blocks][b] == q.addrs[b];
      MulMonotone(b + 1, blocks, size);
    }
  }

  lemma JoinInv<S, M, T, V>(k: Kernel<S, M, T, V>, size: nat, s: Cache<M, T, V>, s': Cache<M, T, V>, e: Event<T, V>)
    requires Inv(k, size, s) && size > 0 && e.Join? && e.blocks > 0 && Next(k, size, s, s', e)
    ensures Inv(k, size, s')
  {
    var q := s.reqs[e.src];
    JoinOk(k, size, s, q, e.blocks, e.toks, e.ds, e.zs, e.addrs);
    forall j | 0 <= j < |s.reqs|
      ensures Shared(size, s'.reqs[|s.reqs|], s.reqs[j]) && Shared(size, s.reqs[j], s'.reqs[|s.reqs|])
    {
      JoinShared(size, s, q, s.reqs[j], e.blocks, e.toks, e.ds, e.zs, e.addrs);
    }
  }

  lemma JoinAloneInv<S, M, T, V>(k: Kernel<S, M, T, V>, size: nat, s: Cache<M, T, V>, s': Cache<M, T, V>,
                                 e: Event<T, V>)
    requires Inv(k, size, s) && size > 0 && e.Join? && e.blocks == 0 && Next(k, size, s, s', e)
    ensures Inv(k, size, s')
  {
    assert e.addrs[e.blocks..] == e.addrs;
    var r := s'.reqs[|s.reqs|];
    forall blk: int | 0 <= blk
      ensures blk * size >= 0 == r.done
    {
      MulMonotone(0, blk, size);
    }
  }

  lemma GrowInv<S, M, T, V>(k: Kernel<S, M, T, V>, size: nat, s: Cache<M, T, V>, s': Cache<M, T, V>, e: Event<T, V>)
    requires Inv(k, size, s) && size > 0 && e.Grow? && Next(k, size, s, s', e)
    ensures Inv(k, size, s')
  {
    var r, r' := s.reqs[e.i], s'.reqs[e.i];
    forall blk | 0 <= blk && blk * size < r.done
      ensures BlockHolds(k, size, s.ssm, r', blk)
    {
      assert BlockHolds(k, size, s.ssm, r, blk);
    }
    forall i | 0 <= i < |r.outs|
      ensures OutHolds(k, r', i)
    {
      assert OutHolds(k, r, i);
    }
    forall j | 0 <= j < |s.reqs| && j != e.i
      ensures Shared(size, r', s.reqs[j]) && Shared(size, s.reqs[j], r')
    {
      GrowShared(size, r, e.more, s.reqs[j]);
    }
  }

  lemma GrowShared<T, V>(size: nat, r: Req<T, V>, more: seq<int>, q: Req<T, V>)
    requires Shared(size, r, q) && Shared(size, q, r)
    requires forall b :: 0 <= b < |more| ==> more[b] !in q.addrs
    ensures Shared(size, r.(addrs := r.addrs + more), q) && Shared(size, q, r.(addrs := r.addrs + more))
  {
  }

  lemma NextInv<S, M, T, V>(k: Kernel<S, M, T, V>, size: nat, s: Cache<M, T, V>, s': Cache<M, T, V>, e: Event<T, V>)
    requires size > 0 && Inv(k, size, s) && Next(k, size, s, s', e)
    ensures Inv(k, size, s')
  {
    match e
    case Call(_, _) => CallInv(k, size, s, s', e);
    case Join(_, blocks, _, _, _, _) =>
      if blocks > 0 {
        JoinInv(k, size, s, s', e);
      } else {
        JoinAloneInv(k, size, s, s', e);
      }
    case Grow(_, _) => GrowInv(k, size, s, s', e);
    case Evict(_) =>
  }

  /** A run: consecutive states linked by events. */
  ghost predicate IsRun<S, M, T, V>(k: Kernel<S, M, T, V>, size: nat, ss: seq<Cache<M, T, V>>, es: seq<Event<T, V>>) {
    && size > 0 && |ss| == |es| + 1 && ss[0].reqs == []
    && forall i :: 0 <= i < |es| ==> Next(k, size, ss[i], ss[i + 1], es[i])
  }

  lemma {:induction false} RunInv<S, M, T, V>(k: Kernel<S, M, T, V>, size: nat, ss: seq<Cache<M, T, V>>,
                                              es: seq<Event<T, V>>, i: nat)
    requires IsRun(k, size, ss, es) && i < |ss|
    ensures Inv(k, size, ss[i])
  {
    if i > 0 {
      RunInv(k, size, ss, es, i - 1);
      NextInv(k, size, ss[i - 1], ss[i], es[i - 1]);
    }
  }

  lemma ExactOutputs<S, M, T, V>(k: Kernel<S, M, T, V>, size: nat, ssm: seq<M>, r: Req<T, V>)
    requires ReqOk(k, size, ssm, r)
    requires forall c :: c in r.cuts && c <= |r.toks| ==>
      k.load(k.save(Run(k, k.zero, r.toks, r.ds, c))) == Run(k, k.zero, r.toks, r.ds, c)
    ensures r.outs == Outputs(k, k.zero, r.toks, r.ds)[r.from..r.done]
    ensures r.gates == GatedOutputs(k, k.zero, r.toks, r.ds, r.zs)[r.from..r.done]
  {
    var outs, gates := Outputs(k, k.zero, r.toks, r.ds), GatedOutputs(k, k.zero, r.toks, r.ds, r.zs);
    forall x | 0 <= x < |r.outs|
      ensures r.outs[x] == outs[r.from..r.done][x] && r.gates[x] == gates[r.from..r.done][x]
    {
      assert OutHolds(k, r, x);
      CutRunExact(k, r.toks, r.ds, r.cuts, r.from + x + 1);
    }
  }

  /** Prefix caching is invisible: in every state of every run, a request whose states survive storage at the positions
      where it resumed has produced the outputs, plain and gated, of one uninterrupted scan from its first token, and
      every block of its table that it has reached holds the state of that scan at the end of the block. */
  lemma CachingIsInvisible<S, M, T, V>(k: Kernel<S, M, T, V>, size: nat, ss: seq<Cache<M, T, V>>, es: seq<Event<T, V>>,
                                       i: nat, j: nat)
    requires IsRun(k, size, ss, es) && i < |ss| && j < |ss[i].reqs|
    requires var r := ss[i].reqs[j];
             |r.toks| == |r.ds| && forall c :: c in r.cuts && c <= |r.toks| ==>
               k.load(k.save(Run(k, k.zero, r.toks, r.ds, c))) == Run(k, k.zero, r.toks, r.ds, c)
    ensures var r := ss[i].reqs[j];
            && r.from <= r.done <= |r.toks|
            && r.outs == Outputs(k, k.zero, r.toks, r.ds)[r.from..r.done]
            && |r.zs| == |r.toks| && r.gates == GatedOutputs(k, k.zero, r.toks, r.ds, r.zs)[r.from..r.done]
            && forall blk {:trigger r.addrs[blk]} :: 0 <= blk && blk * size < r.done ==>
              && blk < |r.addrs| && 0 <= r.addrs[blk] < |ss[i].ssm|
              && ss[i].ssm[r.addrs[blk]] == k.save(Run(k, k.zero, r.toks, r.ds, Min((blk + 1) * size, r.done)))
  {
    RunInv(k, size, ss, es, i);
    var r := ss[i].reqs[j];
    ExactOutputs(k, size, ss[i].ssm, r);
    forall blk | 0 <= blk && blk * size < r.done
      ensures && blk < |r.addrs| && 0 <= r.addrs[blk] < |ss[i].ssm|
              && ss[i].ssm[r.addrs[blk]] == k.save(Run(k, k.zero, r.toks, r.ds, Min((blk + 1) * size, r.done)))
    {
      assert BlockHolds(k, size, ss[i].ssm, r, blk);
      MulMonotone(0, blk + 1, size);
      CutRunExact(k, r.toks, r.ds, r.cuts, Min((blk + 1) * size, r.done));
    }
  }

  /** The abstract call is what the kernel does when it is launched with the planner's metadata. */
  lemma CallIsExec<S, M, T, V>(k: Kernel<S, M, T, V>, a: Launch<T>, b: nat, d: nat, m: Mem<M, V>, r: Req<T, V>)
    requires InBounds(a, b, d, r.done, |m.delta|, |m.z|, |m.ssm|) && !Skipped(a, b) && a.cacheEnabled
    requires CanCall(a.blockSize, |m.ssm|, r, SeqLen(a, b)) && r.addrs <= Addrs(a, b, d)
    requires HasInit(a, b) == (r.done > 0) && a.initialStateIdx[b] == LastComputedBlock(a.blockSize, r.done)
    requires Tokens(a, b, d) == r.toks[r.done..r.done + SeqLen(a, b)]
    requires m.delta[Base(a, b, d)..Base(a, b, d) + SeqLen(a, b)] == r.ds[r.done..r.done + SeqLen(a, b)]
    requires a.hasZ ==> m.z[ZBase(a, b, d)..ZBase(a, b, d) + SeqLen(a, b)] == r.zs[r.done..r.done + SeqLen(a, b)]
    ensures var m' := Exec(k, a, b, d, r.done, m);
            var r' := CallReq(k, a.blockSize, m.ssm, r, SeqLen(a, b));
            && m'.ssm == CallSsm(k, a.blockSize, m.ssm, r, SeqLen(a, b))
            && r'.outs == r.outs + m'.delta[Base(a, b, d)..Base(a, b, d) + SeqLen(a, b)]
            && (a.hasZ ==> r'.gates == r.gates + m'.z[ZBase(a, b, d)..ZBase(a, b, d) + SeqLen(a, b)])
  {
    var n := SeqLen(a, b);
    BlocksExist(a.blockSize, |m.ssm|, r, n);
    var t, c := TaskOf(k, a, b, d, m), CallTask(k, a.blockSize, m.ssm, r, n);
    assert t.start == c.start && t.toks == c.toks && t.ds == c.ds && (a.hasZ ==> t.zs == c.zs);
    SameStores(t, c, m.ssm, Addrs(a, b, d), r.addrs, r.done / a.blockSize, Ends(a.blockSize, r.done, n),
               ChunkCount(a.blockSize, r.done, n));
    assert Exec(k, a, b, d, r.done, m).delta[Base(a, b, d)..Base(a, b, d) + n] == t.outs;
    assert a.hasZ ==> Exec(k, a, b, d, r.done, m).z[ZBase(a, b, d)..ZBase(a, b, d) + n] == t.gates;
  }

  lemma {:induction false} SameStores<S, M, T, V>(t: Task<S, M, T, V>, c: Task<S, M, T, V>, ssm: seq<M>, row: seq<int>,
                                                  addrs: seq<int>, first: nat, ends: seq<nat>, n: nat)
    requires |t.toks| == |t.ds| && n < |ends| && first + n <= |addrs| && addrs <= row
    requires forall i :: 0 <= i < |ends| ==> ends[i] <= |t.toks|
    requires forall i :: first <= i < first + n ==> 0 <= addrs[i] < |ssm|
    requires t.k == c.k && t.start == c.start && t.toks == c.toks && t.ds == c.ds
    ensures StoreStates(t, ssm, row, first, ends, n) == StoreStates(c, ssm, addrs, first, ends, n)
  {
    if n > 0 {
      SameStores(t, c, ssm, row, addrs, first, ends, n - 1);
    }
  }
}
