/** What is mapped where, over whole runs: mappings belong to addresses, and an unmap call removes whatever it finds
    there. */
module SleepWakeMaps {
  import opened Wrappers
  import opened SleepWake
  import opened SleepWakeRuns

  /** The device still has what x's map call for chunk i mapped. */
  predicate Holds(s: Sys, x: nat, i: nat)
    requires x in s.allocs
  {
    && i < |s.allocs[x].chunks| && s.allocs[x].chunks[i].addr in s.maps
    && s.maps[s.allocs[x].chunks[i].addr].x == x && s.maps[s.allocs[x].chunks[i].addr].i == i
  }

  lemma HoldsIs(s: Sys, x: nat, i: nat)
    requires MapsOk(s) && x in s.allocs
    ensures Holds(s, x, i) <==> i in s.allocs[x].bound
  {
    if Holds(s, x, i) {
      assert LabelOk(s, s.allocs[x].chunks[i].addr);
    }
    if i in s.allocs[x].bound {
      assert BindingOk(s, x, i);
    }
  }

  /** Chunk i's address is mapped to chunk i's own handle, by x's own call. */
  predicate HasChunk(s: Sys, x: nat, i: nat)
    requires x in s.allocs && i < |s.allocs[x].chunks|
  {
    var a := s.allocs[x];
    && i in a.own && a.chunks[i].addr in s.maps
    && s.maps[a.chunks[i].addr] == Binding(a.chunks[i].size, a.own[i], x, i)
  }

  /** There is memory behind the whole address range, opened and zeroed. */
  ghost predicate Backed(s: Sys, x: nat)
    requires x in s.allocs
  {
    var n := |s.allocs[x].chunks|;
    n in s.allocs[x].done && n + 1 in s.allocs[x].done && forall i :: 0 <= i < n ==> HasChunk(s, x, i)
  }

  lemma HasChunkIs(s: Sys, x: nat, i: nat)
    requires MapsOk(s) && x in s.allocs && i < |s.allocs[x].chunks|
    ensures HasChunk(s, x, i) <==> Binds(s.allocs[x], i)
  {
    HoldsIs(s, x, i);
    if i in s.allocs[x].bound {
      assert BindingOk(s, x, i);
    }
  }

  /** At every point of every run what is mapped at different addresses does not overlap. */
  lemma MappingsDisjoint(g: nat, ss: seq<Sys>, acts: seq<Action>, j: nat)
    requires g > 0 && Run(g, ss, acts) && j <= |acts|
    ensures forall b, c :: b in ss[j].maps && c in ss[j].maps && b != c ==>
        Apart(b, ss[j].maps[b].size, c, ss[j].maps[c].size)
  {
    RunInv(g, ss, acts, j);
  }

  // --- One chunk -----------------------------------------------------------------------------------------------------

  function Unmaps(a: Alloc): Option<nat> {
    if a.phase.Unmapping? || a.phase.Backing? then Some(UnmapIndex(a)) else None
  }

  /** x itself maps or unmaps chunk i. */
  predicate MovesChunk(s: Sys, act: Action, x: nat, i: nat) {
    && act.Step? && act.x == x && x in s.allocs
    && (|| (act.op == Map(true) && s.allocs[x].phase == Mapping(i))
        || (act.op == Unmap(true) && Unmaps(s.allocs[x]) == Some(i)))
  }

  ghost predicate TakenWithin(ss: seq<Sys>, acts: seq<Action>, i: nat, j: nat, x: nat, c: nat)
    requires i <= j <= |acts| < |ss|
  {
    exists k :: i <= k < j && Takes(ss[k], acts[k], x, c)
  }

  lemma BoundEffect(g: nat, err: bool, resets: nat, a: Alloc, op: Op, i: nat)
    requires g > 0 && Allowed(g, a, op)
    requires !(op == Map(true) && a.phase == Mapping(i))
    requires !(op == Unmap(true) && Unmaps(a) == Some(i))
    ensures i in Effect(g, err, resets, a, op).a.bound <==> i in a.bound
  {
  }

  lemma OwnChunk(g: nat, s: Sys, s': Sys, act: Action, x: nat, i: nat)
    requires g > 0 && Next(g, s, s', act) && x in s.allocs && act.Step? && act.x == x && !MovesChunk(s, act, x, i)
    ensures x in s'.allocs && (i in s'.allocs[x].bound <==> i in s.allocs[x].bound)
  {
    BoundEffect(g, s.err, s.resets, s.allocs[x], act.op, i);
  }

  lemma OtherChunk(g: nat, s: Sys, s': Sys, act: Action, x: nat, i: nat)
    requires g > 0 && Next(g, s, s', act) && x in s.allocs && !(act.Step? && act.x == x)
    ensures x in s'.allocs && (i in s'.allocs[x].bound <==> i in s.allocs[x].bound && !Takes(s, act, x, i))
  {
    Bystander(g, s, s', act, x);
    SeenBound(g, s, act, x, i);
  }

  lemma SeenBound(g: nat, s: Sys, act: Action, x: nat, i: nat)
    requires g > 0 && x in s.allocs && !(act.Step? && act.x == x)
    ensures i in Seen(g, s, act, x).bound <==> i in s.allocs[x].bound && !Takes(s, act, x, i)
  {
  }

  lemma ChunkStep(g: nat, s: Sys, s': Sys, act: Action, x: nat, i: nat)
    requires g > 0 && MapsOk(s) && MapsOk(s') && Next(g, s, s', act) && x in s.allocs && !MovesChunk(s, act, x, i)
    ensures x in s'.allocs && (Holds(s', x, i) <==> Holds(s, x, i) && !Takes(s, act, x, i))
  {
    if act.Step? && act.x == x {
      OwnChunk(g, s, s', act, x, i);
    } else {
      OtherChunk(g, s, s', act, x, i);
    }
    HoldsIs(s, x, i);
    HoldsIs(s', x, i);
  }

  /** Over any stretch of a run in which an allocation itself neither maps nor unmaps a chunk, the chunk is mapped at
      the end exactly if it was mapped at the beginning and nobody else unmapped it in between. */
  lemma ChunkIff(g: nat, ss: seq<Sys>, acts: seq<Action>, i: nat, j: nat, x: nat, c: nat)
    requires g > 0 && Run(g, ss, acts) && i <= j <= |acts| && x in ss[i].allocs
    requires forall k :: i <= k < j ==> !MovesChunk(ss[k], acts[k], x, c)
    ensures x in ss[j].allocs
    ensures Holds(ss[j], x, c) <==> Holds(ss[i], x, c) && !TakenWithin(ss, acts, i, j, x, c)
  {
    AddressFixed(g, ss, acts, i, j, x);
    var held := seq(|ss|, n requires 0 <= n < |ss| => x in ss[n].allocs && Holds(ss[n], x, c));
    var taken := seq(|acts|, n requires 0 <= n < |acts| => Takes(ss[n], acts[n], x, c));
    forall n | i <= n < j
      ensures held[n + 1] == (held[n] && !taken[n])
    {
      SpanChunk(g, ss, acts, i, n, x, c);
    }
    Persists(held, taken, i, j);
    if TakenWithin(ss, acts, i, j, x, c) {
      var n :| i <= n < j && Takes(ss[n], acts[n], x, c);
      assert taken[n];
    }
  }

  lemma SpanChunk(g: nat, ss: seq<Sys>, acts: seq<Action>, i: nat, n: nat, x: nat, c: nat)
    requires g > 0 && Run(g, ss, acts) && i <= n < |acts| && x in ss[i].allocs && !MovesChunk(ss[n], acts[n], x, c)
    ensures x in ss[n].allocs && x in ss[n + 1].allocs
    ensures Holds(ss[n + 1], x, c) <==> Holds(ss[n], x, c) && !Takes(ss[n], acts[n], x, c)
  {
    AddressFixed(g, ss, acts, i, n, x);
    RunInv(g, ss, acts, n);
    RunInv(g, ss, acts, n + 1);
    ChunkStep(g, ss[n], ss[n + 1], acts[n], x, c);
  }

  /** Unmapping somebody else's chunk takes an allocation that has lost its address, as the one that unmaps or as the
      one that is unmapped. */
  lemma TakingNeedsLoss(g: nat, s: Sys, act: Action, x: nat, i: nat)
    requires g > 0 && Inv(g, s) && x in s.allocs && Takes(s, act, x, i)
    ensures act.x in s.allocs && !(HasAddress(s, x) && HasAddress(s, act.x))
  {
    var b, y := UnmapsAt(s, act).value, act.x;
    assert LabelOk(s, b);
    assert AllocOk(g, s, x) && AllocOk(g, s, y);
    if HasAddress(s, x) && HasAddress(s, y) {
      SameRange(s, s.allocs[x], s.allocs[y], i, UnmapIndex(s.allocs[y]));
    }
  }

  /** Two chunks at one address lie in one reservation. */
  lemma SameRange(s: Sys, a: Alloc, b: Alloc, i: nat, j: nat)
    requires Disjoint(s) && Planned(a.base, a.size, a.chunks) && Planned(b.base, b.size, b.chunks)
    requires i < |a.chunks| && j < |b.chunks| && a.chunks[i].addr == b.chunks[j].addr
    requires a.base in s.reserved && s.reserved[a.base].size == a.size && b.base in s.reserved
        && s.reserved[b.base].size == b.size
    ensures a.base == b.base
  {
  }

  // --- The rollback of a failed map ----------------------------------------------------------------------------------

  /** x is undoing a create_and_map. */
  predicate BackingOut(a: Alloc) {
    a.phase.Backing? || a.phase == Undoing
  }

  /** x sees an error after its map call for chunk k, at step p, and has undone everything before step q. */
  ghost predicate RollsBack(ss: seq<Sys>, acts: seq<Action>, p: nat, q: nat, x: nat, k: nat)
    requires p < q < |acts| < |ss|
  {
    && acts[p] == Step(x, SeeMap) && ss[p].err && x in ss[p].allocs && ss[p].allocs[x].phase == MapCalled(k)
    && k < |ss[p].allocs[x].chunks| && acts[q] == Step(x, UndoDone)
    && forall m :: p < m <= q ==> x in ss[m].allocs && BackingOut(ss[m].allocs[x]) && Back(ss[m].allocs[x], k)
  }

  predicate Back(a: Alloc, end: nat) {
    a.phase.Backing? ==> a.phase.end == end && a.phase.k < end
  }

  lemma BackingMoves(s: Sys, act: Action, x: nat, k: nat)
    requires x in s.allocs && BackingOut(s.allocs[x]) && Back(s.allocs[x], k)
    ensures !MovesChunk(s, act, x, k)
  {
  }

  /** The rollback unmaps only the chunks before the one whose map call was the last: that one stays mapped, its handle
      released, exactly if the call had succeeded (the error was another thread's) and nobody else unmaps it. */
  lemma RollbackLeaves(g: nat, ss: seq<Sys>, acts: seq<Action>, p: nat, q: nat, x: nat, k: nat)
    requires g > 0 && Run(g, ss, acts) && p < q < |acts| && RollsBack(ss, acts, p, q, x, k)
    ensures x in ss[q + 1].allocs && ss[q + 1].allocs[x].own == map[]
    ensures Holds(ss[q + 1], x, k) <==> Holds(ss[p], x, k) && !TakenWithin(ss, acts, p, q + 1, x, k)
    ensures ss[p].allocs[x].job == Malloc ==>
        (Holds(ss[p], x, k) <==> k in ss[p].allocs[x].done && k !in ss[p].allocs[x].gone)
  {
    forall m | p <= m < q + 1
      ensures !MovesChunk(ss[m], acts[m], x, k)
    {
      if m > p {
        BackingMoves(ss[m], acts[m], x, k);
      }
    }
    ChunkIff(g, ss, acts, p, q + 1, x, k);
    assert Next(g, ss[q], ss[q + 1], acts[q]);
    RunInv(g, ss, acts, p);
    if ss[p].allocs[x].job == Malloc {
      LastMapped(g, ss[p], x, k);
    }
  }

  lemma LastMapped(g: nat, s: Sys, x: nat, k: nat)
    requires g > 0 && Inv(g, s) && x in s.allocs && s.allocs[x].phase == MapCalled(k) && s.allocs[x].job == Malloc
    requires k < |s.allocs[x].chunks|
    ensures Holds(s, x, k) <==> k in s.allocs[x].done && k !in s.allocs[x].gone
  {
    assert AllocOk(g, s, x);
    HoldsIs(s, x, k);
  }
}
