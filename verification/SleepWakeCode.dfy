/**
 The allocator's entry points as code, each driver call and each look at the error code one step of the lifecycle.
 Between any two of them other threads may take any number of steps on other allocations; `Interfere` stands for them.
 */
module SleepWakeCode {
  import opened Wrappers
  import opened SleepWake
  import opened SleepWakeRuns
  import opened SleepWakeMaps
  import opened Arith
  import ChunkPlan

  /** The address is as it was, or taken by others. */
  predicate SameClaim(a: Alloc, a': Alloc) {
    a'.claim == a.claim || a'.claim == Robbed
  }

  /** All that others can do to an allocation: take its address, and unmap chunks of it. */
  predicate Spared(a: Alloc, a': Alloc) {
    var lost := a.bound.Keys - a'.bound.Keys;
    SameClaim(a, a') && a' == a.(claim := a'.claim, bound := a.bound - lost, gone := a.gone + lost)
  }

  lemma SparedTwice(a: Alloc, b: Alloc, c: Alloc)
    requires Spared(a, b) && Spared(b, c)
    ensures Spared(a, c)
  {
    var lost := a.bound.Keys - c.bound.Keys;
    assert c.bound == a.bound - lost;
    assert c.gone == a.gone + lost;
  }

  lemma SparedWithout(a: Alloc, i: nat)
    requires i in a.bound
    ensures Spared(a, Without(a, i))
  {
    assert a.bound.Keys - (a.bound - {i}).Keys == {i};
  }

  lemma SparedAt(g: nat, s: Sys, act: Action, x: nat)
    requires g > 0 && x in s.allocs && MapsOk(s)
    ensures Spared(s.allocs[x], Seen(g, s, act, x))
  {
    var a, b := s.allocs[x], UnmapsAt(s, act);
    assert a.bound - {} == a.bound && a.gone + {} == a.gone;
    if b.Some? && b.value in s.maps && s.maps[b.value].x == x {
      assert LabelOk(s, b.value);
      SparedWithout(a, s.maps[b.value].i);
    }
  }

  /** What other threads leave alone: allocation x, up to taking its address and unmapping its chunks, and, while x's
      job holds the interpreter lock, the lock and a raised error code. */
  predicate LeftAlone(s: Sys, s': Sys, x: nat) {
    && (x in s.allocs <==> x in s'.allocs)
    && (x in s.allocs ==> Spared(s.allocs[x], s'.allocs[x]))
    && LockKept(s, s', x)
  }

  predicate Mine(act: Action, x: nat) {
    (act.Step? || act.Reserve?) && act.x == x
  }

  /** The lock and the error code, while x's job holds the lock. */
  predicate LockKept(s: Sys, s': Sys, x: nat) {
    s.resets <= s'.resets && (s.lock == Some(x) ==> s'.lock == Some(x) && s'.resets == s.resets && (s.err ==> s'.err))
  }

  lemma OthersKeepLock(g: nat, s: Sys, y: nat, op: Op, x: nat)
    requires g > 0 && y in s.allocs && AllocOk(g, s, y) && Allowed(g, s.allocs[y], op) && y != x
    requires Possible(s, y, s.allocs[y], Effect(g, s.err, s.resets, s.allocs[y], op))
    ensures LockKept(s, Do(s, y, Effect(g, s.err, s.resets, s.allocs[y], op)), x)
  {
    var m := Effect(g, s.err, s.resets, s.allocs[y], op);
    EffectError(g, s.err, s.resets, s.allocs[y], op);
    ClearedAside(s, y, m);
  }

  lemma OthersArrive(g: nat, s: Sys, s': Sys, act: Action, x: nat)
    requires g > 0 && Next(g, s, s', act) && !Mine(act, x) && x !in s.allocs
    ensures x !in s'.allocs
  {
    if act.Step? {
      ClearedAside(s, act.x, Effect(g, s.err, s.resets, s.allocs[act.x], act.op));
    }
  }

  lemma OthersLeaveAlone(g: nat, s: Sys, s': Sys, act: Action, x: nat)
    requires g > 0 && Inv(g, s) && Next(g, s, s', act) && !Mine(act, x)
    ensures LeftAlone(s, s', x)
  {
    if act.Step? {
      assert AllocOk(g, s, act.x);
      OthersKeepLock(g, s, act.x, act.op, x);
    }
    if x in s.allocs {
      Bystander(g, s, s', act, x);
      SparedAt(g, s, act, x);
    } else {
      OthersArrive(g, s, s', act, x);
    }
  }

  /** Whatever steps others take, `Interfere`'s promise covers them. */
  lemma {:induction false} InterferenceSound(g: nat, ss: seq<Sys>, acts: seq<Action>, x: nat)
    requires g > 0 && Steps(g, ss, acts) && Inv(g, ss[0])
    requires forall i :: 0 <= i < |acts| ==> !Mine(acts[i], x)
    ensures Inv(g, ss[|acts|]) && LeftAlone(ss[0], ss[|acts|], x)
    decreases |acts|
  {
    if |acts| == 0 {
      if x in ss[0].allocs {
        var a := ss[0].allocs[x];
        assert a.bound - {} == a.bound && a.gone + {} == a.gone;
      }
    } else {
      InterferenceSound(g, ss[..|acts|], acts[..|acts| - 1], x);
      NextInv(g, ss[|acts| - 1], ss[|acts|], acts[|acts| - 1]);
      OthersLeaveAlone(g, ss[|acts| - 1], ss[|acts|], acts[|acts| - 1], x);
      if x in ss[0].allocs {
        SparedTwice(ss[0].allocs[x], ss[|acts| - 1].allocs[x], ss[|acts|].allocs[x]);
      }
    }
  }

  /** The same allocation in the same job. */
  predicate Same(a: Alloc, a': Alloc) {
    SameExtent(a, a') && a'.since == a.since && a'.job == a.job
  }

  predicate SameExtent(a: Alloc, a': Alloc) {
    a'.base == a.base && a'.size == a.size && a'.chunks == a.chunks
  }

  /** x's job went on. */
  predicate Onward(s: Sys, s': Sys, x: nat) {
    && x in s.allocs && x in s'.allocs && s.resets <= s'.resets
    && Same(s.allocs[x], s'.allocs[x]) && SameClaim(s.allocs[x], s'.allocs[x])
  }

  /** What a step of x's job did to x and to the error code. */
  predicate Took(g: nat, s: Sys, s': Sys, x: nat, op: Op)
    requires g > 0 && x in s.allocs && Allowed(g, s.allocs[x], op)
  {
    var m := Effect(g, s.err, s.resets, s.allocs[x], op);
    && x in s'.allocs && s'.allocs[x] == m.a && s'.err == m.err
       && s'.resets == (if m.reset then s.resets + 1 else s.resets)
    && s'.lock == if Locks(m.a.job) then Some(x) else if s.lock == Some(x) then None else s.lock
  }

  /** No handle of the device is x's. */
  ghost predicate NoneLeft(s: Sys, x: nat) {
    forall h :: h in s.live ==> s.live[h] != Some(x)
  }

  /** An allocation that owns no handle has no handle of the device. */
  lemma NothingLeft(g: nat, s: Sys, x: nat)
    requires g > 0 && Inv(g, s) && x in s.allocs && s.allocs[x].own == map[] && !s.allocs[x].phase.Created?
    ensures NoneLeft(s, x)
  {
    NoHandles();
  }

  /** Of x's chunks only those in `left` are still mapped. */
  ghost predicate MappedWithin(s: Sys, x: nat, left: set<nat>) {
    forall b :: b in s.maps && s.maps[b].x == x ==> s.maps[b].i in left
  }

  lemma BoundMapped(s: Sys, x: nat, left: set<nat>)
    requires MapsOk(s) && x in s.allocs && s.allocs[x].bound.Keys <= left
    ensures MappedWithin(s, x, left)
  {
    forall b | b in s.maps && s.maps[b].x == x
      ensures s.maps[b].i in left
    {
      assert LabelOk(s, b);
    }
  }

  /** Every call of create_and_map succeeded, and what is mapped now is all but what others have unmapped since. */
  ghost predicate Built(s: Sys, x: nat)
    requires x in s.allocs
  {
    && AllCalled(s.allocs[x])
    && forall i :: 0 <= i < |s.allocs[x].chunks| ==> (HasChunk(s, x, i) <==> i !in s.allocs[x].gone)
  }

  lemma BuiltIs(g: nat, s: Sys, x: nat)
    requires g > 0 && MapsOk(s) && x in s.allocs && AllCalled(s.allocs[x]) && Current(s.allocs[x])
    ensures Built(s, x)
  {
    var a := s.allocs[x];
    forall i | 0 <= i < |a.chunks|
      ensures HasChunk(s, x, i) <==> i !in a.gone
    {
      HasChunkIs(s, x, i);
      assert i in a.gone || Binds(a, i);
    }
  }

  // --- The driver's choices ------------------------------------------------------------------------------------------

  /** Past every reservation there is room. */
  lemma RoomBeyond(s: Sys, keys: set<nat>) returns (top: nat)
    requires keys <= s.reserved.Keys
    ensures forall b :: b in keys ==> b + s.reserved[b].size < top
    decreases keys
  {
    top := 0;
    if keys != {} {
      var b :| b in keys;
      var t := RoomBeyond(s, keys - {b});
      assert forall c :: c in keys ==> c == b || c in keys - {b};
      top := if t <= b + s.reserved[b].size then b + s.reserved[b].size + 1 else t;
    }
  }

  lemma AlignedRoom(g: nat, s: Sys, size: nat) returns (base: nat)
    requires g > 0
    ensures FreeRange(s, base, size) && base % g == 0
  {
    var top := RoomBeyond(s, s.reserved.Keys);
    MultipleOf(top, g);
    base := top * g;
  }

  /** The chunks of the given sizes, one behind the other. */
  function Layout(base: nat, sizes: seq<nat>): seq<Chunk> {
    seq(|sizes|, i requires 0 <= i < |sizes| => Chunk(base + ChunkPlan.Sum(sizes[..i]), sizes[i]))
  }

  /** Chunk sizes that fit a range. */
  ghost predicate Cut(size: nat, sizes: seq<nat>) {
    (forall i :: 0 <= i < |sizes| ==> sizes[i] > 0) && ChunkPlan.Sum(sizes) <= size
  }

  /** Every plan of the chunk loop is one, even when a sum wrapped. */
  lemma PlanCut(size: nat, granularity: nat, base: nat)
    requires granularity > 0 && ChunkPlan.AlignUp(base, granularity) != 0
    ensures var total, chunk := ChunkPlan.AlignUp(size, granularity), ChunkPlan.AlignUp(base, granularity);
            && ChunkPlan.ChunkTotal(total, chunk) >= 0
            && Cut(total, ChunkPlan.Sizes(total, chunk, ChunkPlan.ChunkTotal(total, chunk)))
  {
    var total, chunk := ChunkPlan.AlignUp(size, granularity), ChunkPlan.AlignUp(base, granularity);
    ChunkPlan.AlignUpBounded(size, granularity);
    ChunkPlan.TotalFits(total, chunk);
    CutInto(total, chunk, ChunkPlan.ChunkTotal(total, chunk));
  }

  lemma CutInto(total: nat, chunk: nat, n: nat)
    requires total < ChunkPlan.U64 && chunk > 0 && (n - 1) * chunk < total
    ensures Cut(total, ChunkPlan.Sizes(total, chunk, n))
  {
    if n > 0 {
      ChunkPlan.Offsets(total, chunk, n, n);
      forall i | 0 <= i < n
        ensures ChunkPlan.Sizes(total, chunk, n)[i] > 0
      {
        ChunkPlan.SizeAt(total, chunk, n, i);
      }
    }
  }

  lemma LayoutPlanned(base: nat, size: nat, sizes: seq<nat>)
    requires Cut(size, sizes)
    ensures Planned(base, size, Layout(base, sizes))
  {
    var cs := Layout(base, sizes);
    assert sizes[..|sizes|] == sizes;
    forall i | 0 <= i < |cs|
      ensures cs[i].addr + cs[i].size == base + ChunkPlan.Sum(sizes[..i + 1]) <= base + size
    {
      ChunkPlan.SumStep(sizes, i);
      ChunkPlan.SumGrows(sizes, i + 1, |sizes|);
    }
    forall i, j | 0 <= i < j < |cs|
      ensures cs[i].addr + cs[i].size <= cs[j].addr
    {
      ChunkPlan.SumGrows(sizes, i + 1, j);
    }
  }

  /** When the next map, access or memset call can succeed. */
  predicate CanMap(s: Sys, a: Alloc)
    requires a.phase.Mapping?
  {
    var k := a.phase.k;
    if k < |a.chunks| then k in a.own && Vacant(s, a.chunks[k]) else forall i :: 0 <= i < |a.chunks| ==>
        a.chunks[i].addr in s.maps
  }

  lemma MapShape(g: nat, s: Sys, x: nat, ok: bool)
    requires g > 0 && Inv(g, s) && x in s.allocs && s.allocs[x].phase.Mapping? && (ok ==> CanMap(s, s.allocs[x]))
    ensures Allowed(g, s.allocs[x], Map(ok))
    ensures var a, m := s.allocs[x], Effect(g, s.err, s.resets, s.allocs[x], Map(ok));
            && Same(a, m.a) && m.a.claim == a.claim && !m.reset && Possible(s, x, a, m)
               && m.a.phase == MapCalled(a.phase.k)
  {
    assert AllocOk(g, s, x);
  }

  /** When the next unmap call can succeed. */
  predicate CanUnmap(s: Sys, a: Alloc)
    requires a.phase.Unmapping? || a.phase.Backing?
  {
    UnmapIndex(a) < |a.chunks| && Mapped(s, a.chunks[UnmapIndex(a)])
  }

  /** Where an unmap call leads; sleep and free note the chunks whose call failed. */
  function AfterUnmap(n: nat, p: Phase, ok: bool): Phase
    requires p.Unmapping? || p.Backing?
  {
    if p.Backing? then BackPhase(p.k + 1, p.end) else UnmapPhase(n, p.k + 1, if ok then p.left else p.left + {p.k})
  }

  lemma UnmapEffect(g: nat, err: bool, resets: nat, a: Alloc, ok: bool)
    requires g > 0 && Allowed(g, a, Unmap(ok))
    ensures var m := Effect(g, err, resets, a, Unmap(ok));
            && m == Move(m.a, Stay, Keep, if ok then Unbind(UnmapIndex(a)) else NoMap, err, false)
            && Same(a, m.a) && m.a.claim == a.claim && m.a.phase == AfterUnmap(|a.chunks|, a.phase, ok)
  {
  }

  lemma UnmapAllowed(g: nat, s: Sys, x: nat, ok: bool)
    requires g > 0 && x in s.allocs && AllocOk(g, s, x) && (s.allocs[x].phase.Unmapping? || s.allocs[x].phase.Backing?)
    requires ok ==> CanUnmap(s, s.allocs[x])
    ensures Allowed(g, s.allocs[x], Unmap(ok))
    ensures Possible(s, x, s.allocs[x], Effect(g, s.err, s.resets, s.allocs[x], Unmap(ok)))
  {
    UnmapEffect(g, s.err, s.resets, s.allocs[x], ok);
  }

  lemma SettleShape(g: nat, s: Sys, x: nat, ok: bool)
    requires g > 0 && Inv(g, s) && x in s.allocs && s.allocs[x].phase.Replaced?
    requires ok ==> Freeable(s, s.allocs[x].phase.got, s.allocs[x].size)
    ensures Allowed(g, s.allocs[x], Settle(ok))
    ensures var m := Effect(g, s.err, s.resets, s.allocs[x], Settle(ok));
            && m.a.phase == Reporting && Same(s.allocs[x], m.a) && Possible(s, x, s.allocs[x], m)
            && m.a.bound == s.allocs[x].bound && (s.err ==> m.err)
  {
    assert AllocOk(g, s, x);
  }

  /** Where a look at the error code leads: back out, or on to the next call. */
  predicate AfterCreate(n: nat, before: Phase, after: Phase)
    requires before.Created?
  {
    after == Undoing || after == if before.k + 1 >= n then Mapping(0) else Creating(before.k + 1)
  }

  /** create_and_map is past its last map, access or memset call. */
  predicate MapsDone(p: Phase) {
    p.Returned? || p.Backing? || p == Undoing
  }

  predicate AfterMap(n: nat, k: nat, after: Phase) {
    MapsDone(after) || (k + 1 < n + 2 && after == Mapping(k + 1))
  }

  lemma SeeMapShape(g: nat, s: Sys, x: nat)
    requires g > 0 && Inv(g, s) && x in s.allocs && s.allocs[x].phase.MapCalled?
    ensures Allowed(g, s.allocs[x], SeeMap)
    ensures var a, m := s.allocs[x], Effect(g, s.err, s.resets, s.allocs[x], SeeMap);
            && Same(a, m.a) && m.a.claim == a.claim && !m.reset && Possible(s, x, a, m)
               && AfterMap(|a.chunks|, a.phase.k, m.a.phase)
  {
    assert AllocOk(g, s, x);
  }

  lemma AcceptShape(g: nat, s: Sys, x: nat, giveUp: bool)
    requires g > 0 && x in s.allocs && AllocOk(g, s, x) && s.allocs[x].phase == Reserved && s.allocs[x].base % g == 0
    ensures var op := if giveUp then Drop else Accept;
            && Allowed(g, s.allocs[x], op)
            && var a, m := s.allocs[x], Effect(g, s.err, s.resets, s.allocs[x], op);
            && !m.reset && Possible(s, x, a, m)
            && (m.a.phase == Gone || (Same(a, m.a) && m.a.claim == a.claim && m.a.phase == FirstPhase(|a.chunks|)))
  {
  }

  lemma SeeCreateShape(g: nat, s: Sys, x: nat)
    requires g > 0 && Inv(g, s) && x in s.allocs && s.allocs[x].phase.Created?
    ensures Allowed(g, s.allocs[x], SeeCreate)
    ensures var a, m := s.allocs[x], Effect(g, s.err, s.resets, s.allocs[x], SeeCreate);
            && Same(a, m.a) && m.a.claim == a.claim && !m.reset && Possible(s, x, a, m)
               && AfterCreate(|a.chunks|, a.phase, m.a.phase)
  {
    assert AllocOk(g, s, x);
  }

  lemma DoTook(g: nat, s: Sys, x: nat, op: Op)
    requires g > 0 && x in s.allocs && Allowed(g, s.allocs[x], op)
    ensures Took(g, s, Do(s, x, Effect(g, s.err, s.resets, s.allocs[x], op)), x, op)
  {
    ClearedAside(s, x, Effect(g, s.err, s.resets, s.allocs[x], op));
  }

  class Machine {
    const g: nat
    var s: Sys

    ghost predicate Good()
      reads this
    {
      g > 0 && Inv(g, s)
    }

    constructor (g: nat)
      requires g > 0
      ensures this.g == g && Good() && s.allocs == map[]
    {
      this.g := g;
      s := Sys(map[], map[], map[], false, 0, None, map[]);
    }

    method Interfere(x: nat)
      requires Good()
      modifies this
      ensures Good() && LeftAlone(old(s), s, x)
    {
    }

    /** Others run while x's job is under way. */
    method Pause(x: nat)
      requires Good() && x in s.allocs
      modifies this
      ensures Good() && Onward(old(s), s, x)
      ensures s.allocs[x].phase == old(s.allocs[x].phase) && s.allocs[x].own == old(s.allocs[x].own)
    {
      Interfere(x);
    }

    /** One step of x's job. */
    method Take(x: nat, op: Op)
      requires Good() && x in s.allocs && Allowed(g, s.allocs[x], op)
      requires Possible(s, x, s.allocs[x], Effect(g, s.err, s.resets, s.allocs[x], op))
      modifies this
      ensures Good() && Took(g, old(s), s, x, op)
    {
      StepKeeps(g, s, x, op);
      DoTook(g, s, x, op);
      s := Do(s, x, Effect(g, s.err, s.resets, s.allocs[x], op));
    }

    /** A free range, as the driver finds one. */
    method FindRange(size: nat) returns (base: nat)
      requires Good()
      ensures FreeRange(s, base, size)
    {
      base :| FreeRange(s, base, size) by {
        var top := RoomBeyond(s, s.reserved.Keys);
        assert FreeRange(s, top, size);
      }
    }

    method FindAligned(size: nat) returns (base: nat)
      requires Good()
      ensures FreeRange(s, base, size) && base % g == 0
    {
      base :| FreeRange(s, base, size) && base % g == 0 by {
        var b := AlignedRoom(g, s, size);
      }
    }

    // --- unmap_and_release -------------------------------------------------------------------------------------------

    method CallUnmap(x: nat) returns (ok: bool)
      requires Good() && x in s.allocs && (s.allocs[x].phase.Unmapping? || s.allocs[x].phase.Backing?)
      modifies this
      ensures Good() && Onward(old(s), s, x)
      ensures s.allocs[x].phase == AfterUnmap(|s.allocs[x].chunks|, old(s.allocs[x].phase), ok)
    {
      ok := *;
      ok := ok && CanUnmap(s, s.allocs[x]);
      assert AllocOk(g, s, x);
      UnmapAllowed(g, s, x, ok);
      UnmapEffect(g, s.err, s.resets, s.allocs[x], ok);
      Take(x, Unmap(ok));
    }

    /** One unmap call, others running before it. */
    method UnmapOne(x: nat) returns (ok: bool)
      requires Good() && x in s.allocs && (s.allocs[x].phase.Unmapping? || s.allocs[x].phase.Backing?)
      modifies this
      ensures Good() && Onward(old(s), s, x)
      ensures s.allocs[x].phase == AfterUnmap(|s.allocs[x].chunks|, old(s.allocs[x].phase), ok)
    {
      Pause(x);
      ok := CallUnmap(x);
    }

    /** Unmap chunk after chunk, going on after a failure; `left` are the chunks whose call failed. */
    method UnmapChunks(x: nat) returns (left: set<nat>)
      requires Good() && x in s.allocs && s.allocs[x].phase == UnmapPhase(|s.allocs[x].chunks|, 0, {})
          && Emptying(s.allocs[x])
      modifies this
      ensures Good() && Onward(old(s), s, x) && s.allocs[x].phase == Releasing(left, left != {})
    {
      left := {};
      var k, n := 0, |s.allocs[x].chunks|;
      while k < n
        invariant Good() && Onward(old(s), s, x) && k <= n && s.allocs[x].phase == UnmapPhase(n, k, left)
      {
        var ok := UnmapOne(x);
        left := if ok then left else left + {k};
        k := k + 1;
      }
    }

    method ReleaseOne(x: nat, i: nat)
      requires Good() && x in s.allocs && s.allocs[x].phase.Releasing? && i in s.allocs[x].own
      modifies this
      ensures Good() && Onward(old(s), s, x) && s.allocs[x].phase.Releasing?
          && s.allocs[x].phase.left == old(s.allocs[x].phase.left)
      ensures s.allocs[x].own == old(s.allocs[x].own) - {i}
    {
      assert AllocOk(g, s, x);
      Interfere(x);
      OwnedLive(s, x);
      var ok := *;
      Take(x, Release(i, ok));
    }

    method RecordFirstError(x: nat)
      requires Good() && x in s.allocs && s.allocs[x].phase.Releasing? && s.allocs[x].own == map[]
      modifies this
      ensures Good() && Onward(old(s), s, x) && s.allocs[x].phase == Freeing && NoneLeft(s, x)
      ensures s.allocs[x].bound.Keys <= old(s.allocs[x].phase.left) && (old(s.allocs[x].phase.left) != {} ==> s.err)
    {
      Interfere(x);
      assert AllocOk(g, s, x);
      Take(x, Released);
      NothingLeft(g, s, x);
    }

    method ReleaseAll(x: nat)
      requires Good() && x in s.allocs && s.allocs[x].phase.Releasing?
      modifies this
      ensures Good() && Onward(old(s), s, x) && s.allocs[x].phase.Releasing?
          && s.allocs[x].phase.left == old(s.allocs[x].phase.left)
      ensures s.allocs[x].own == map[]
    {
      while s.allocs[x].own != map[]
        invariant Good() && Onward(old(s), s, x)
        invariant s.allocs[x].phase.Releasing? && s.allocs[x].phase.left == old(s.allocs[x].phase.left)
        decreases s.allocs[x].own.Keys
      {
        var i :| i in s.allocs[x].own;
        ReleaseOne(x, i);
      }
    }

    /** unmap_and_release: afterwards no handle of the device is this allocation's, and of what it mapped nothing is
        mapped but the chunks whose unmap call failed; any such failure is in the error code. */
    method UnmapAndRelease(x: nat) returns (left: set<nat>)
      requires Good() && x in s.allocs && s.allocs[x].phase == UnmapPhase(|s.allocs[x].chunks|, 0, {})
          && Emptying(s.allocs[x])
      modifies this
      ensures Good() && Onward(old(s), s, x) && s.allocs[x].phase == Freeing && NoneLeft(s, x)
      ensures s.allocs[x].bound.Keys <= left && MappedWithin(s, x, left) && (left != {} ==> s.err)
    {
      left := UnmapChunks(x);
      ReleaseAll(x);
      RecordFirstError(x);
      BoundMapped(s, x, left);
    }

    // --- Sleep -------------------------------------------------------------------------------------------------------

    /** A sleep that left something mapped has the error code set. */
    ghost predicate Emptied(x: nat)
      reads this
    {
      x in s.allocs && (s.err || s.allocs[x].bound == map[])
    }

    method FreeOldAddress(x: nat)
      requires Good() && Emptied(x) && s.allocs[x].phase == Freeing && s.allocs[x].job == Job.Sleep
      modifies this
      ensures Good() && Emptied(x) && Same(old(s.allocs[x]), s.allocs[x])
      ensures s.allocs[x].phase == Unreserved || s.allocs[x].phase == Reporting
    {
      assert AllocOk(g, s, x);
      Interfere(x);
      var ok := *;
      ok := ok && Freeable(s, s.allocs[x].base, s.allocs[x].size);
      Take(x, FreeForSleep(ok));
    }

    method ReserveAgain(x: nat)
      requires Good() && Emptied(x) && s.allocs[x].phase == Unreserved
      modifies this
      ensures Good() && Emptied(x) && Same(old(s.allocs[x]), s.allocs[x])
      ensures s.allocs[x].phase.Replaced? || s.allocs[x].phase == Reporting
    {
      assert AllocOk(g, s, x);
      Interfere(x);
      var got := FindRange(s.allocs[x].size);
      var ok := *;
      Take(x, Rereserve(ok, got));
    }

    method CompareAddress(x: nat)
      requires Good() && Emptied(x) && s.allocs[x].phase.Replaced?
      modifies this
      ensures Good() && Emptied(x) && Same(old(s.allocs[x]), s.allocs[x]) && s.allocs[x].phase == Reporting
    {
      assert AllocOk(g, s, x);
      Interfere(x);
      var ok := *;
      ok := ok && Freeable(s, s.allocs[x].phase.got, s.allocs[x].size);
      SettleShape(g, s, x, ok);
      Take(x, Settle(ok));
    }

    /** The address is freed and reserved again, so that nobody else is given it. */
    method ReplaceAddress(x: nat)
      requires Good() && Emptied(x) && s.allocs[x].phase == Freeing && s.allocs[x].job == Job.Sleep
      modifies this
      ensures Good() && Emptied(x) && Same(old(s.allocs[x]), s.allocs[x]) && s.allocs[x].phase == Reporting
    {
      FreeOldAddress(x);
      if s.allocs[x].phase == Unreserved {
        ReserveAgain(x);
        if s.allocs[x].phase.Replaced? {
          CompareAddress(x);
        }
      }
    }

    method ReportOfSleep(x: nat) returns (ok: bool)
      requires Good() && Emptied(x) && s.allocs[x].phase == Reporting
      modifies this
      ensures Good() && x in s.allocs && SameExtent(old(s.allocs[x]), s.allocs[x]) && s.allocs[x].phase == Asleep
      ensures NoneLeft(s, x)
      ensures ok ==> MappedWithin(s, x, {}) && (HasAddress(s, x) || s.allocs[x].claim == Robbed)
      ensures !s.err
    {
      assert AllocOk(g, s, x);
      Interfere(x);
      assert AllocOk(g, s, x);
      ok := !s.err;
      Take(x, ReportSleep);
      ClaimIs(s, x);
      if ok {
        BoundMapped(s, x, {});
      }
      NothingLeft(g, s, x);
    }

    method StartSleep(x: nat)
      requires Good() && x in s.allocs && s.allocs[x].phase == Awake && s.lock == None
      modifies this
      ensures Good() && x in s.allocs && SameExtent(old(s.allocs[x]), s.allocs[x])
      ensures s.allocs[x].phase == UnmapPhase(|s.allocs[x].chunks|, 0, {}) && s.allocs[x].job == Job.Sleep
    {
      assert AllocOk(g, s, x);
      Take(x, BeginSleep);
    }

    /** python_unmap_and_release: the allocation is asleep and owns no handle, whatever is reported. Reported success
        means that nothing it mapped is still mapped, and that it still has its address, or that a thread freeing an
        address it had lost took it. In any case the error code is clear afterwards. */
    method Sleep(x: nat) returns (ok: bool)
      requires Good() && x in s.allocs && s.allocs[x].phase == Awake && s.lock == None
      modifies this
      ensures Good() && x in s.allocs && SameExtent(old(s.allocs[x]), s.allocs[x]) && s.allocs[x].phase == Asleep
      ensures NoneLeft(s, x)
      ensures ok ==> MappedWithin(s, x, {}) && (HasAddress(s, x) || s.allocs[x].claim == Robbed)
      ensures !s.err
    {
      StartSleep(x);
      var left := UnmapAndRelease(x);
      ReplaceAddress(x);
      ok := ReportOfSleep(x);
    }

    // --- create_and_map ----------------------------------------------------------------------------------------------

    method CallCreate(x: nat)
      requires Good() && x in s.allocs && s.allocs[x].phase.Creating?
      modifies this
      ensures Good() && Onward(old(s), s, x)
      ensures s.allocs[x].phase.Created? && s.allocs[x].phase.k == old(s.allocs[x].phase.k)
    {
      assert AllocOk(g, s, x);
      Interfere(x);
      var h :| h !in s.live by {
        var n := AboveAll(s.live.Keys);
        assert n !in s.live;
      }
      var ok := *;
      Take(x, Create(ok, h));
    }

    method LookAfterCreate(x: nat)
      requires Good() && x in s.allocs && s.allocs[x].phase.Created?
      modifies this
      ensures Good() && Onward(old(s), s, x)
      ensures AfterCreate(|s.allocs[x].chunks|, old(s.allocs[x].phase), s.allocs[x].phase)
    {
      Interfere(x);
      SeeCreateShape(g, s, x);
      Take(x, SeeCreate);
    }

    method UndoOne(x: nat, i: nat)
      requires Good() && x in s.allocs && s.allocs[x].phase == Undoing && i in s.allocs[x].own
      modifies this
      ensures Good() && Onward(old(s), s, x)
      ensures s.allocs[x].phase == Undoing && s.allocs[x].own == old(s.allocs[x].own) - {i}
    {
      assert AllocOk(g, s, x);
      Interfere(x);
      OwnedLive(s, x);
      var ok := *;
      Take(x, Undo(i, ok));
    }

    method UndoAll(x: nat)
      requires Good() && x in s.allocs && s.allocs[x].phase == Undoing
      modifies this
      ensures Good() && Onward(old(s), s, x) && s.allocs[x].phase == Returned(false)
    {
      while s.allocs[x].own != map[]
        invariant Good() && Onward(old(s), s, x) && s.allocs[x].phase == Undoing
        decreases s.allocs[x].own.Keys
      {
        var i :| i in s.allocs[x].own;
        UndoOne(x, i);
      }
      assert AllocOk(g, s, x);
      Take(x, UndoDone);
    }

    method CallMap(x: nat)
      requires Good() && x in s.allocs && s.allocs[x].phase.Mapping?
      modifies this
      ensures Good() && Onward(old(s), s, x)
      ensures s.allocs[x].phase == MapCalled(old(s.allocs[x].phase.k))
    {
      Interfere(x);
      var ok := *;
      ok := ok && CanMap(s, s.allocs[x]);
      MapShape(g, s, x, ok);
      Take(x, Map(ok));
    }

    method LookAfterMap(x: nat)
      requires Good() && x in s.allocs && s.allocs[x].phase.MapCalled?
      modifies this
      ensures Good() && Onward(old(s), s, x)
      ensures AfterMap(|s.allocs[x].chunks|, old(s.allocs[x].phase.k), s.allocs[x].phase)
    {
      Interfere(x);
      SeeMapShape(g, s, x);
      Take(x, SeeMap);
    }

    method CreateChunks(x: nat)
      requires Good() && x in s.allocs && s.allocs[x].phase == Creating(0) && |s.allocs[x].chunks| > 0
      modifies this
      ensures Good() && Onward(old(s), s, x)
      ensures s.allocs[x].phase == Mapping(0) || s.allocs[x].phase == Undoing
    {
      var k, n := 0, |s.allocs[x].chunks|;
      while s.allocs[x].phase.Creating?
        invariant Good() && Onward(old(s), s, x) && k <= n
        invariant (s.allocs[x].phase == Creating(k) && k < n) || s.allocs[x].phase == Mapping(0)
            || s.allocs[x].phase == Undoing
        decreases n - k
      {
        CallCreate(x);
        LookAfterCreate(x);
        k := k + 1;
      }
    }

    method MapOne(x: nat)
      requires Good() && x in s.allocs && s.allocs[x].phase.Mapping?
      modifies this
      ensures Good() && Onward(old(s), s, x)
      ensures AfterMap(|s.allocs[x].chunks|, old(s.allocs[x].phase.k), s.allocs[x].phase)
    {
      CallMap(x);
      LookAfterMap(x);
    }

    method MapChunks(x: nat)
      requires Good() && x in s.allocs && s.allocs[x].phase == Mapping(0)
      modifies this
      ensures Good() && Onward(old(s), s, x) && MapsDone(s.allocs[x].phase)
    {
      var k, n := 0, |s.allocs[x].chunks|;
      while s.allocs[x].phase.Mapping?
        invariant Good() && Onward(old(s), s, x) && k <= n + 2
        invariant (s.allocs[x].phase == Mapping(k) && k < n + 2) || MapsDone(s.allocs[x].phase)
        decreases n + 2 - k
      {
        MapOne(x);
        k := k + 1;
      }
    }

    /** The chunks before the one whose map call seems to have failed are unmapped, ignoring failures. */
    method BackOut(x: nat)
      requires Good() && x in s.allocs && s.allocs[x].phase.Backing?
      modifies this
      ensures Good() && Onward(old(s), s, x) && s.allocs[x].phase == Undoing
    {
      assert AllocOk(g, s, x);
      var k, end := s.allocs[x].phase.k, s.allocs[x].phase.end;
      while k < end
        invariant Good() && Onward(old(s), s, x) && s.allocs[x].phase == BackPhase(k, end)
      {
        var ok := UnmapOne(x);
        k := k + 1;
      }
    }

    /** The three loops, with their ways out. */
    method MakeCalls(x: nat)
      requires Good() && x in s.allocs && s.allocs[x].phase == FirstPhase(|s.allocs[x].chunks|) && Filling(s.allocs[x])
      modifies this
      ensures Good() && Onward(old(s), s, x) && s.allocs[x].phase.Returned?
    {
      if s.allocs[x].phase.Creating? {
        CreateChunks(x);
      }
      if s.allocs[x].phase.Mapping? {
        MapChunks(x);
      }
      if s.allocs[x].phase.Backing? {
        BackOut(x);
      }
      if s.allocs[x].phase == Undoing {
        UndoAll(x);
      }
    }

    /** create_and_map: create all chunks, map all chunks, open and zero the range; back out on a failure seen. Unless
        somebody cleared the error code meanwhile, either everything was done, and each chunk is mapped to its handle
        unless others have unmapped it, or the error code tells. */
    method CreateAndMap(x: nat)
      requires Good() && x in s.allocs && s.allocs[x].phase == FirstPhase(|s.allocs[x].chunks|) && Filling(s.allocs[x])
      modifies this
      ensures Good() && Onward(old(s), s, x) && s.allocs[x].phase.Returned?
      ensures s.allocs[x].since == s.resets ==> s.err || Built(s, x)
    {
      MakeCalls(x);
      assert AllocOk(g, s, x);
      if s.allocs[x].since == s.resets && !s.err {
        BuiltIs(g, s, x);
      }
    }

    // --- Wake --------------------------------------------------------------------------------------------------------

    /** python_create_and_map: true means awake with every chunk created and mapped, and mapped still unless others have
        unmapped it; false means asleep and owning nothing. An allocation without its address does not get it back, and
        one that has it keeps it unless others take it. */
    method Wake(x: nat) returns (ok: bool)
      requires Good() && x in s.allocs && s.allocs[x].phase == Asleep && s.lock == None
      modifies this
      ensures Good() && x in s.allocs && SameExtent(old(s.allocs[x]), s.allocs[x])
      ensures s.allocs[x].phase == if ok then Awake else Asleep
      ensures if ok then Built(s, x) else s.allocs[x].own == map[]
      ensures if old(HasAddress(s, x)) then HasAddress(s, x) || s.allocs[x].claim == Robbed else !HasAddress(s, x)
      ensures !s.err
    {
      ClaimIs(s, x);
      StartWake(x);
      CreateAndMap(x);
      ok := ReportOfWake(x);
      ClaimIs(s, x);
    }

    method StartWake(x: nat)
      requires Good() && x in s.allocs && s.allocs[x].phase == Asleep && s.lock == None
      modifies this
      ensures Good() && x in s.allocs && SameExtent(old(s.allocs[x]), s.allocs[x])
          && SameClaim(old(s.allocs[x]), s.allocs[x])
      ensures s.allocs[x].job == Job.Wake && s.allocs[x].phase == FirstPhase(|s.allocs[x].chunks|)
    {
      assert AllocOk(g, s, x);
      Take(x, BeginWake);
    }

    method ReportOfWake(x: nat) returns (ok: bool)
      requires Good() && x in s.allocs && s.allocs[x].phase.Returned? && s.allocs[x].job == Job.Wake
      modifies this
      ensures Good() && x in s.allocs && SameExtent(old(s.allocs[x]), s.allocs[x])
          && SameClaim(old(s.allocs[x]), s.allocs[x])
      ensures s.allocs[x].phase == if ok then Awake else Asleep
      ensures if ok then Built(s, x) else s.allocs[x].own == map[]
      ensures !s.err
    {
      Interfere(x);
      assert AllocOk(g, s, x);
      WakeEffect(g, s.err, s.resets, s.allocs[x]);
      ok := !s.err;
      Take(x, ReportWake);
      assert AllocOk(g, s, x);
      if ok {
        BuiltIs(g, s, x);
      }
    }

    // --- Malloc ------------------------------------------------------------------------------------------------------

    /** Others run; now and then a call of ours fails without changing anything. */
    method Fail(x: nat)
      requires Good()
      modifies this
      ensures Good() && LeftAlone(old(s), s, x)
    {
      FaultKeeps(g, s);
      s := s.(err := true);
    }

    /** One reservation attempt that succeeded. */
    method Arrive(x: nat, size: nat, sizes: seq<nat>, explicit: bool)
      requires Good() && x !in s.allocs && Cut(size, sizes)
      modifies this
      ensures Good() && x in s.allocs && s.allocs[x].phase == Reserved && s.allocs[x].size == size
      ensures s.allocs[x].chunks == Layout(s.allocs[x].base, sizes)
      ensures explicit ==> s.allocs[x].base % g == 0
      ensures s.allocs[x].since == old(s.resets)
    {
      var base := FindRange(size);
      if explicit {
        base := FindAligned(size);
      }
      LayoutPlanned(base, size, sizes);
      ArrivalKeeps(g, s, x, base, size, Layout(base, sizes));
      s := Do(s, x, Arrival(base, size, Layout(base, sizes), s.resets, s.err));
    }

    /** reserve_rocm_address: a second attempt without alignment is accepted only if it happens to be aligned. */
    method ReserveAddress(x: nat, size: nat, sizes: seq<nat>) returns (ok: bool)
      requires Good() && x !in s.allocs && Cut(size, sizes)
      modifies this
      ensures Good()
      ensures ok ==> x in s.allocs && s.allocs[x].phase == Reserved && s.allocs[x].base % g == 0
      ensures ok ==> s.allocs[x].size == size && s.allocs[x].chunks == Layout(s.allocs[x].base, sizes)
      ensures ok ==> old(s.resets) <= s.allocs[x].since
      ensures !ok ==> x !in s.allocs || s.allocs[x].phase == Gone
    {
      if * {
        Arrive(x, size, sizes, true);
        return true;
      }
      Interfere(x);
      if * {
        return false;
      }
      Arrive(x, size, sizes, false);
      Interfere(x);
      ok := s.allocs[x].base % g == 0;
      if !ok {
        GiveBack(x);
      }
    }

    method GiveBack(x: nat)
      requires Good() && x in s.allocs && s.allocs[x].phase == Reserved && s.allocs[x].base % g != 0
      modifies this
      ensures Good() && x in s.allocs && s.allocs[x].phase == Gone
    {
      assert AllocOk(g, s, x);
      var freed := *;
      freed := freed && Freeable(s, s.allocs[x].base, s.allocs[x].size);
      Take(x, Reject(freed));
    }

    method LookAfterReserve(x: nat)
      requires Good() && x in s.allocs && s.allocs[x].phase == Reserved && s.allocs[x].base % g == 0
      modifies this
      ensures Good() && x in s.allocs
      ensures s.allocs[x].phase == Gone
          || (Onward(old(s), s, x) && s.allocs[x].phase == FirstPhase(|s.allocs[x].chunks|))
    {
      Interfere(x);
      assert AllocOk(g, s, x);
      var giveUp := *;
      AcceptShape(g, s, x, giveUp);
      Take(x, if giveUp then Drop else Accept);
    }

    method Finish(x: nat) returns (ok: bool)
      requires Good() && x in s.allocs && s.allocs[x].phase.Returned? && s.allocs[x].job == Job.Malloc
      modifies this
      ensures Good() && x in s.allocs && SameExtent(old(s.allocs[x]), s.allocs[x])
      ensures s.allocs[x].phase == (if ok then Awake else Discarding)
      ensures ok ==> HasAddress(s, x) || s.allocs[x].claim == Robbed
      ensures old(s.allocs[x].since) <= s.resets
      ensures ok && s.resets == old(s.allocs[x].since) ==> Built(s, x)
    {
      Interfere(x);
      assert AllocOk(g, s, x);
      ok := !s.err;
      Take(x, Return);
      ClaimIs(s, x);
      assert AllocOk(g, s, x);
      if ok && s.resets == s.allocs[x].since {
        BuiltIs(g, s, x);
      }
    }

    method DiscardAddress(x: nat)
      requires Good() && x in s.allocs && s.allocs[x].phase == Discarding
      modifies this
      ensures Good() && x in s.allocs && s.allocs[x].phase == Gone
    {
      assert AllocOk(g, s, x);
      Interfere(x);
      var ok := *;
      ok := ok && Freeable(s, s.allocs[x].base, s.allocs[x].size);
      Take(x, Discard(ok));
    }

    /** my_malloc behind a reservation that succeeded. */
    method Build(x: nat) returns (ok: bool)
      requires Good() && x in s.allocs && s.allocs[x].phase == Reserved && s.allocs[x].base % g == 0
      modifies this
      ensures Good() && x in s.allocs
      ensures ok ==> SameExtent(old(s.allocs[x]), s.allocs[x]) && (HasAddress(s, x) || s.allocs[x].claim == Robbed)
      ensures ok && s.resets == old(s.allocs[x].since) ==> Built(s, x)
      ensures s.allocs[x].phase == if ok then Awake else Gone
      ensures ok ==> old(s.allocs[x].since) <= s.resets
    {
      assert AllocOk(g, s, x);
      LookAfterReserve(x);
      if s.allocs[x].phase == Gone {
        return false;
      }
      CreateAndMap(x);
      ok := Finish(x);
      if !ok {
        DiscardAddress(x);
      }
    }

    /** my_malloc: an address is returned only for an aligned range that the new allocation holds, unless others took
        it. Unless somebody cleared the error code meanwhile every call succeeded, and each chunk is mapped to its
        handle unless others have unmapped it. */
    method Malloc(x: nat, size: nat, sizes: seq<nat>) returns (ptr: Option<nat>)
      requires Good() && x !in s.allocs && Cut(size, sizes)
      modifies this
      ensures Good()
      ensures ptr.Some? ==>
        && x in s.allocs && s.allocs[x].phase == Awake && s.allocs[x].base == ptr.value && s.allocs[x].size == size
        && s.allocs[x].chunks == Layout(ptr.value, sizes) && ptr.value % g == 0
        && (HasAddress(s, x) || s.allocs[x].claim == Robbed)
      ensures ptr.Some? && s.resets == old(s.resets) ==> Built(s, x)
      ensures ptr.None? ==> x !in s.allocs || s.allocs[x].phase == Gone
    {
      Interfere(x);
      if s.err {
        return None;
      }
      Interfere(x);
      var ok := ReserveAddress(x, size, sizes);
      if !ok {
        Fail(x);
        return None;
      }
      ok := Build(x);
      return if ok then Some(s.allocs[x].base) else None;
    }

    // --- Free --------------------------------------------------------------------------------------------------------

    /** my_free: the allocation is gone and owns no handle; of what it mapped nothing is mapped but the chunks whose
        unmap call failed. An asleep one only gives up its address. */
    method Free(x: nat) returns (left: set<nat>)
      requires Good() && x in s.allocs && (s.allocs[x].phase == Awake || s.allocs[x].phase == Asleep) && s.lock == None
      modifies this
      ensures Good() && x in s.allocs && s.allocs[x].phase == Gone
      ensures NoneLeft(s, x) && MappedWithin(s, x, left)
      ensures old(s.allocs[x].phase) == Asleep ==> left == old(s.allocs[x].bound.Keys)
    {
      StartFree(x);
      left := s.allocs[x].bound.Keys;
      if s.allocs[x].phase != Freeing {
        left := UnmapAndRelease(x);
      }
      FreeLast(x, left);
    }

    method StartFree(x: nat)
      requires Good() && x in s.allocs && (s.allocs[x].phase == Awake || s.allocs[x].phase == Asleep) && s.lock == None
      modifies this
      ensures Good() && x in s.allocs && s.allocs[x].job == Job.Free && s.allocs[x].bound == old(s.allocs[x].bound)
      ensures s.allocs[x].phase == if old(s.allocs[x].phase) == Awake then UnmapPhase(|s.allocs[x].chunks|, 0, {})
          else Freeing
    {
      assert AllocOk(g, s, x);
      Take(x, BeginFree);
    }

    method FreeLast(x: nat, ghost left: set<nat>)
      requires Good() && x in s.allocs && s.allocs[x].phase == Freeing && s.allocs[x].job == Job.Free
      requires s.allocs[x].bound.Keys <= left
      modifies this
      ensures Good() && x in s.allocs && s.allocs[x].phase == Gone && NoneLeft(s, x) && MappedWithin(s, x, left)
    {
      assert AllocOk(g, s, x);
      Interfere(x);
      var ok := *;
      ok := ok && Freeable(s, s.allocs[x].base, s.allocs[x].size);
      Take(x, FreeAddress(ok));
      NothingLeft(g, s, x);
      BoundMapped(s, x, left);
    }
  }
}
