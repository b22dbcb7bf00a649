/**
 A launch that serves several requests of the prefix cache at once. Every program of the grid is one row: a request in
 one dim, with its own entries in the state cache. Whatever the order of the programs, the launch is one call for each
 row. */
module ServedLaunch {
  import opened Arith
  import opened ChunkMetadata
  import opened CommutingSteps
  import opened Recurrence
  import opened ScanKernel
  import opened PrefixCache
  import opened ProgramOrder

  /** What the planner and the caller hand the program: the next tokens of row r, and where its states are. Its blocks
      come first in its line of the block table; the rest of the line may hold anything. */
  ghost predicate Serves<M, T, V>(a: Launch<T>, p: Prog, r: Req<T, V>, m: Mem<M, V>) {
    && Sized(a, p, ShapeOf(m)) && !Skipped(a, p.b) && a.cacheEnabled && p.computed == r.done
    && CanCall(a.blockSize, |m.ssm|, r, SeqLen(a, p.b)) && r.addrs <= Addrs(a, p.b, p.d)
    && HasInit(a, p.b) == (r.done > 0) && a.initialStateIdx[p.b] == LastComputedBlock(a.blockSize, r.done)
    && RowsHold(a, p, r, m)
  }

  ghost predicate RowsHold<M, T, V>(a: Launch<T>, p: Prog, r: Req<T, V>, m: Mem<M, V>)
    requires Sized(a, p, ShapeOf(m)) && !Skipped(a, p.b) && r.done + SeqLen(a, p.b) <= |r.toks| == |r.ds| == |r.zs|
  {
    var n := SeqLen(a, p.b);
    && Tokens(a, p.b, p.d) == r.toks[r.done..r.done + n]
    && m.delta[Base(a, p.b, p.d)..Base(a, p.b, p.d) + n] == r.ds[r.done..r.done + n]
    && (a.hasZ ==> m.z[ZBase(a, p.b, p.d)..ZBase(a, p.b, p.d) + n] == r.zs[r.done..r.done + n])
  }

  /** Every program that does anything serves a row of its own. */
  ghost predicate AllServed<M, T, V>(a: Launch<T>, all: set<Prog>, row: Prog -> nat, s: Cache<M, T, V>, m: Mem<M, V>) {
    && (forall p :: p in all ==> InBatch(a, p.b) && Sized(a, p, ShapeOf(m)))
    && (forall p :: p in all && !Skipped(a, p.b) ==> row(p) < |s.reqs| && Serves(a, p, s.reqs[row(p)], m))
    && (forall p, q :: p in all && q in all && p != q && !Skipped(a, p.b) && !Skipped(a, q.b) ==> row(p) != row(q))
  }

  lemma StoredBlock<M, T, V>(a: Launch<T>, p: Prog, r: Req<T, V>, m: Mem<M, V>, x: int) returns (blk: nat)
    requires Serves(a, p, r, m) && Stores(a, p, x)
    ensures blk < |r.addrs| && r.addrs[blk] == x && r.done < (blk + 1) * a.blockSize
  {
    var i :| a.blockIdxFirst[p.b] <= i <= a.blockIdxLast[p.b] && x == SlotAddr(a, p.d, a.cacheIndices[p.b][i]);
    blk := i;
    BlocksExist(a.blockSize, |m.ssm|, r, SeqLen(a, p.b));
    Unfilled(a.blockSize, r.done, blk);
  }

  lemma LoadedBlock<M, T, V>(a: Launch<T>, p: Prog, r: Req<T, V>, m: Mem<M, V>, x: int) returns (blk: nat)
    requires Serves(a, p, r, m) && Loads(a, p, x)
    ensures blk < |r.addrs| && r.addrs[blk] == x
  {
    BlocksExist(a.blockSize, |m.ssm|, r, SeqLen(a, p.b));
    blk := a.initialStateIdx[p.b];
  }

  lemma SharedFull<T, V>(size: nat, r: Req<T, V>, w: Req<T, V>, i: nat, j: nat)
    requires Shared(size, r, w) && i < |r.addrs| && j < |w.addrs| && r.addrs[i] == w.addrs[j]
    ensures (i + 1) * size <= r.done
  {
  }

  /** What a program stores no other row's program stores or loads: the cache shares only blocks that are full. */
  lemma StoresApart<M, T, V>(a: Launch<T>, p: Prog, q: Prog, r: Req<T, V>, w: Req<T, V>, m: Mem<M, V>, x: int)
    requires Serves(a, p, r, m) && Serves(a, q, w, m) && Shared(a.blockSize, r, w) && Stores(a, p, x)
    ensures !Stores(a, q, x) && !Loads(a, q, x)
  {
    var blk := StoredBlock(a, p, r, m, x);
    if Stores(a, q, x) {
      var blk' := StoredBlock(a, q, w, m, x);
      SharedFull(a.blockSize, r, w, blk, blk');
    }
    if Loads(a, q, x) {
      var blk' := LoadedBlock(a, q, w, m, x);
      SharedFull(a.blockSize, r, w, blk, blk');
    }
  }

  /** The programs of the launch do not disturb each other. */
  lemma ServedIndependent<S, M, T, V>(k: Kernel<S, M, T, V>, a: Launch<T>, computed: seq<nat>, row: Prog -> nat,
                                      s: Cache<M, T, V>, m: Mem<M, V>, p: Prog, q: Prog)
    requires Laid(a, computed, ShapeOf(m)) && Inv(k, a.blockSize, s) && AllServed(a, Grid(a, computed), row, s, m)
    requires p in Grid(a, computed) && q in Grid(a, computed) && p != q
    ensures Independent(a, p, q, ShapeOf(m))
  {
    RowsSeparate(a, computed, ShapeOf(m), p, q);
    if !Skipped(a, p.b) && !Skipped(a, q.b) {
      var r, w := s.reqs[row(p)], s.reqs[row(q)];
      forall x
        ensures Stores(a, p, x) ==> !Stores(a, q, x) && !Loads(a, q, x)
        ensures Stores(a, q, x) ==> !Loads(a, p, x)
      {
        if Stores(a, p, x) {
          StoresApart(a, p, q, r, w, m, x);
        }
        if Stores(a, q, x) {
          StoresApart(a, q, p, w, r, m, x);
        }
      }
    }
  }

  /** The program's row of the delta and z buffers is the same in both memories. */
  ghost predicate SameRow<M, T, V>(a: Launch<T>, p: Prog, m: Mem<M, V>, m': Mem<M, V>)
    requires InBatch(a, p.b)
  {
    && ShapeOf(m') == ShapeOf(m)
    && (forall i :: 0 <= i < |m.delta| && Owns(a, p, i) ==> m'.delta[i] == m.delta[i])
    && (forall i :: 0 <= i < |m.z| && OwnsZ(a, p, i) ==> m'.z[i] == m.z[i])
  }

  lemma {:induction false} FoldKeepsRow<S, M, T, V>(k: Kernel<S, M, T, V>, a: Launch<T>, p: Prog, ps: seq<Prog>,
                                                    sh: Shape, m: Mem<M, V>)
    requires ShapeOf(m) == sh && Sized(a, p, sh)
    requires forall i :: 0 <= i < |ps| ==> Sized(a, ps[i], sh) && Independent(a, p, ps[i], sh)
    ensures SameRow(a, p, m, Fold(Stepper(k, a, sh), ps, m))
    decreases |ps|
  {
    if ps != [] {
      Untouched(k, a, p, ps[0], m);
      FoldKeepsRow(k, a, p, ps[1..], sh, Step(k, a, ps[0], m));
    }
  }

  /** Row r after the call for its next n tokens: they are done, and what they put out stands in the buffers. */
  ghost predicate Produced<M, T, V>(a: Launch<T>, p: Prog, r: Req<T, V>, r': Req<T, V>, m: Mem<M, V>)
    requires Sized(a, p, ShapeOf(m)) && !Skipped(a, p.b)
  {
    var n := SeqLen(a, p.b);
    && r'.done == r.done + n
    && r'.outs == r.outs + m.delta[Base(a, p.b, p.d)..Base(a, p.b, p.d) + n]
    && (a.hasZ ==> r'.gates == r.gates + m.z[ZBase(a, p.b, p.d)..ZBase(a, p.b, p.d) + n])
  }

  lemma ProducedKept<M, T, V>(a: Launch<T>, p: Prog, r: Req<T, V>, r': Req<T, V>, m: Mem<M, V>, m': Mem<M, V>)
    requires Sized(a, p, ShapeOf(m)) && !Skipped(a, p.b) && Produced(a, p, r, r', m) && SameRow(a, p, m, m')
    ensures Produced(a, p, r, r', m')
  {
    var n, b, z := SeqLen(a, p.b), Base(a, p.b, p.d), ZBase(a, p.b, p.d);
    assert forall i :: b <= i < b + n ==> Owns(a, p, i);
    assert m'.delta[b..b + n] == m.delta[b..b + n];
    if a.hasZ {
      assert forall i :: z <= i < z + n ==> OwnsZ(a, p, i);
      assert m'.z[z..z + n] == m.z[z..z + n];
    }
  }

  lemma ServesKept<M, T, V>(a: Launch<T>, p: Prog, r: Req<T, V>, m: Mem<M, V>, m': Mem<M, V>)
    requires Serves(a, p, r, m) && SameRow(a, p, m, m')
    ensures Serves(a, p, r, m')
  {
    var n, b, z := SeqLen(a, p.b), Base(a, p.b, p.d), ZBase(a, p.b, p.d);
    assert forall i :: b <= i < b + n ==> Owns(a, p, i);
    assert m'.delta[b..b + n] == m.delta[b..b + n];
    if a.hasZ {
      assert forall i :: z <= i < z + n ==> OwnsZ(a, p, i);
      assert m'.z[z..z + n] == m.z[z..z + n];
    }
  }

  /** The call that a program makes. */
  ghost function Called<S, M, T, V>(k: Kernel<S, M, T, V>, a: Launch<T>, p: Prog, s: Cache<M, T, V>, i: nat,
                                    m: Mem<M, V>): Cache<M, T, V>
    requires i < |s.reqs| && Serves(a, p, s.reqs[i], m) && s.ssm == m.ssm
  {
    var n, r := SeqLen(a, p.b), s.reqs[i];
    Cache(CallSsm(k, a.blockSize, s.ssm, r, n), s.reqs[i := CallReq(k, a.blockSize, s.ssm, r, n)])
  }

  lemma CallStep<S, M, T, V>(k: Kernel<S, M, T, V>, a: Launch<T>, p: Prog, s: Cache<M, T, V>, i: nat, m: Mem<M, V>)
    requires i < |s.reqs| && Serves(a, p, s.reqs[i], m) && s.ssm == m.ssm
    ensures var s', m' := Called(k, a, p, s, i, m), Step(k, a, p, m);
            && Next(k, a.blockSize, s, s', Call(i, SeqLen(a, p.b)))
            && s'.ssm == m'.ssm && Produced(a, p, s.reqs[i], s'.reqs[i], m')
  {
    CallIsExec(k, a, p.b, p.d, m, s.reqs[i]);
  }

  /** The programs left to run after p still find what they need. */
  lemma LeftServed<S, M, T, V>(k: Kernel<S, M, T, V>, a: Launch<T>, all: set<Prog>, row: Prog -> nat, p: Prog,
                               s: Cache<M, T, V>, s': Cache<M, T, V>, m: Mem<M, V>)
    requires Peaceful(a, all, ShapeOf(m)) && AllServed(a, all, row, s, m) && p in all
    requires if Skipped(a, p.b) then s' == s else s.ssm == m.ssm && s' == Called(k, a, p, s, row(p), m)
    ensures AllServed(a, all - {p}, row, s', Step(k, a, p, m)) && Peaceful(a, all - {p}, ShapeOf(m))
  {
    var m' := Step(k, a, p, m);
    forall q | q in all - {p} && !Skipped(a, q.b)
      ensures row(q) < |s'.reqs| && Serves(a, q, s'.reqs[row(q)], m')
    {
      Untouched(k, a, q, p, m);
      ServesKept(a, q, s.reqs[row(q)], m, m');
    }
  }

  /** Consecutive states of the cache, linked by calls. */
  ghost predicate Calls<S, M, T, V>(k: Kernel<S, M, T, V>, size: nat, ss: seq<Cache<M, T, V>>, es: seq<Event<T, V>>) {
    && |ss| == |es| + 1
    && forall i :: 0 <= i < |es| ==> es[i].Call? && Next(k, size, ss[i], ss[i + 1], es[i])
  }

  lemma OneCallMore<S, M, T, V>(k: Kernel<S, M, T, V>, size: nat, s: Cache<M, T, V>, e: Event<T, V>,
                                ss: seq<Cache<M, T, V>>, es: seq<Event<T, V>>)
    requires Calls(k, size, ss, es) && e.Call? && Next(k, size, s, ss[0], e)
    ensures Calls(k, size, [s] + ss, [e] + es) && ([s] + ss)[|es| + 1] == ss[|es|]
  {
    var ss', es' := [s] + ss, [e] + es;
    forall i | 0 <= i < |es'|
      ensures es'[i].Call? && Next(k, size, ss'[i], ss'[i + 1], es'[i])
    {
      if i > 0 {
        assert ss'[i] == ss[i - 1] && ss'[i + 1] == ss[i] && es'[i] == es[i - 1];
      }
    }
  }

  /** What the launch did: the states are the cache's, every program that does anything produced its row's outputs, and
      rows without a program are as they were. */
  ghost predicate Finished<M, T, V>(a: Launch<T>, ps: seq<Prog>, row: Prog -> nat, s: Cache<M, T, V>,
                                    s': Cache<M, T, V>, m': Mem<M, V>) {
    && s'.ssm == m'.ssm && |s'.reqs| == |s.reqs|
    && (forall i :: 0 <= i < |ps| ==> InBatch(a, ps[i].b) && Sized(a, ps[i], ShapeOf(m')))
    && (forall i {:trigger row(ps[i])} :: 0 <= i < |ps| && !Skipped(a, ps[i].b) ==>
          row(ps[i]) < |s.reqs| && Produced(a, ps[i], s.reqs[row(ps[i])], s'.reqs[row(ps[i])], m'))
    && (forall j :: 0 <= j < |s.reqs| && Idle(a, ps, row, j) ==> s'.reqs[j] == s.reqs[j])
  }

  ghost predicate Idle<T>(a: Launch<T>, ps: seq<Prog>, row: Prog -> nat, j: nat)
    requires forall i :: 0 <= i < |ps| ==> InBatch(a, ps[i].b)
  {
    forall i :: 0 <= i < |ps| && !Skipped(a, ps[i].b) ==> row(ps[i]) != j
  }

  /** A launch is one call for each row it serves, in the order the programs ran. */
  lemma {:induction false} LaunchIsCalls<S, M, T, V>(k: Kernel<S, M, T, V>, a: Launch<T>, all: set<Prog>,
                                                     row: Prog -> nat,
                                                     ps: seq<Prog>, sh: Shape, s: Cache<M, T, V>, m: Mem<M, V>)
      returns (ss: seq<Cache<M, T, V>>, es: seq<Event<T, V>>)
    requires ShapeOf(m) == sh && Peaceful(a, all, sh) && AllServed(a, all, row, s, m) && s.ssm == m.ssm
    requires From(ps, all) && forall i, j :: 0 <= i < j < |ps| ==> ps[i] != ps[j]
    ensures Calls(k, a.blockSize, ss, es) && ss[0] == s
    ensures Finished(a, ps, row, s, ss[|es|], Fold(Stepper(k, a, sh), ps, m))
    decreases |ps|
  {
    if ps == [] {
      ss, es := [s], [];
    } else {
      var p, m' := ps[0], Step(k, a, ps[0], m);
      var s' := if Skipped(a, p.b) then s else Called(k, a, p, s, row(p), m);
      LeftServed(k, a, all, row, p, s, s', m);
      if !Skipped(a, p.b) {
        CallStep(k, a, p, s, row(p), m);
      }
      ss, es := LaunchIsCalls(k, a, all - {p}, row, ps[1..], sh, s', m');
      var end := ss[|es|];
      FinishedMore(k, a, all, row, ps, sh, s, s', end, m);
      if !Skipped(a, p.b) {
        OneCallMore(k, a.blockSize, s, Call(row(p), SeqLen(a, p.b)), ss, es);
        ss, es := [s] + ss, [Call(row(p), SeqLen(a, p.b))] + es;
      }
    }
  }

  lemma FinishedMore<S, M, T, V>(k: Kernel<S, M, T, V>, a: Launch<T>, all: set<Prog>, row: Prog -> nat, ps: seq<Prog>,
                                 sh: Shape, s: Cache<M, T, V>, s': Cache<M, T, V>, end: Cache<M, T, V>, m: Mem<M, V>)
    requires ShapeOf(m) == sh && Peaceful(a, all, sh) && AllServed(a, all, row, s, m) && s.ssm == m.ssm
    requires ps != [] && From(ps, all) && forall i, j :: 0 <= i < j < |ps| ==> ps[i] != ps[j]
    requires if Skipped(a, ps[0].b) then s' == s else s' == Called(k, a, ps[0], s, row(ps[0]), m)
    requires Finished(a, ps[1..], row, s', end, Fold(Stepper(k, a, sh), ps[1..], Step(k, a, ps[0], m)))
    ensures Finished(a, ps, row, s, end, Fold(Stepper(k, a, sh), ps, m))
  {
    var p, m' := ps[0], Step(k, a, ps[0], m);
    var m'' := Fold(Stepper(k, a, sh), ps[1..], m');
    assert Stepper(k, a, sh)(p, m) == m';
    assert Fold(Stepper(k, a, sh), ps, m) == m'';
    if !Skipped(a, p.b) {
      CallStep(k, a, p, s, row(p), m);
      FoldKeepsRow(k, a, p, ps[1..], sh, m');
      assert Idle(a, ps[1..], row, row(p));
      ProducedKept(a, p, s.reqs[row(p)], s'.reqs[row(p)], m', m'');
    }
    forall i | 0 < i < |ps| && !Skipped(a, ps[i].b)
      ensures row(ps[i]) < |s.reqs| && Produced(a, ps[i], s.reqs[row(ps[i])], end.reqs[row(ps[i])], m'')
    {
      assert ps[i] == ps[1..][i - 1];
      assert s'.reqs[row(ps[i])] == s.reqs[row(ps[i])];
    }
    forall j | 0 <= j < |s.reqs| && Idle(a, ps, row, j)
      ensures end.reqs[j] == s.reqs[j]
    {
      assert Idle(a, ps[1..], row, j);
    }
  }

  lemma ServedPeaceful<S, M, T, V>(k: Kernel<S, M, T, V>, a: Launch<T>, computed: seq<nat>, row: Prog -> nat,
                                   s: Cache<M, T, V>, m: Mem<M, V>)
    requires Laid(a, computed, ShapeOf(m)) && Inv(k, a.blockSize, s) && AllServed(a, Grid(a, computed), row, s, m)
    ensures Peaceful(a, Grid(a, computed), ShapeOf(m))
  {
    forall p, q | p in Grid(a, computed) && q in Grid(a, computed) && p != q
      ensures Independent(a, p, q, ShapeOf(m))
    {
      ServedIndependent(k, a, computed, row, s, m, p, q);
    }
  }

  lemma {:induction false} CallsInv<S, M, T, V>(k: Kernel<S, M, T, V>, size: nat, ss: seq<Cache<M, T, V>>,
                                                es: seq<Event<T, V>>, i: nat)
    requires size > 0 && Calls(k, size, ss, es) && Inv(k, size, ss[0]) && i <= |es|
    ensures Inv(k, size, ss[i])
  {
    if i > 0 {
      CallsInv(k, size, ss, es, i - 1);
      NextInv(k, size, ss[i - 1], ss[i], es[i - 1]);
    }
  }

  /** Serving several requests in one launch: in whatever order its programs run, the launch leaves the memory that one
      call after the other leaves. */
  lemma ServedInAnyOrder<S, M(!new), T, V(!new)>(k: Kernel<S, M, T, V>, a: Launch<T>, computed: seq<nat>,
                                                 row: Prog -> nat,
                                                 ps: seq<Prog>, qs: seq<Prog>, s: Cache<M, T, V>, m: Mem<M, V>)
      returns (ss: seq<Cache<M, T, V>>, es: seq<Event<T, V>>)
    requires Laid(a, computed, ShapeOf(m)) && a.blockSize > 0 && Inv(k, a.blockSize, s) && s.ssm == m.ssm
    requires AllServed(a, Grid(a, computed), row, s, m)
    requires From(ps, Grid(a, computed)) && From(qs, Grid(a, computed))
    requires multiset(ps) == multiset(qs) && forall i, j :: 0 <= i < j < |ps| ==> ps[i] != ps[j]
    ensures Calls(k, a.blockSize, ss, es) && ss[0] == s && Inv(k, a.blockSize, ss[|es|])
    ensures Finished(a, ps, row, s, ss[|es|], Fold(Stepper(k, a, ShapeOf(m)), qs, m))
  {
    var all, sh := Grid(a, computed), ShapeOf(m);
    ServedPeaceful(k, a, computed, row, s, m);
    PeacefulCommute(k, a, all, sh);
    AnyOrder(Stepper(k, a, sh), ShapedBy<M, V>(sh), all, ps, qs, m);
    ss, es := LaunchIsCalls(k, a, all, row, ps, sh, s, m);
    CallsInv(k, a.blockSize, ss, es, |es|);
  }
}
