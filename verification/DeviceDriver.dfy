/**
 Mapping an allocation's chunks on the device, with rollback, and releasing them. Any driver call may fail, in which
 case it changes nothing; every call is recorded in a log.
 */
module DeviceDriver {
  import opened Arith
  import opened ChunkPlan

  /** What the driver holds: live physical handles, and mapped chunks by address (size and handle). */
  datatype Dev = Dev(live: set<nat>, maps: map<nat, (nat, nat)>)

  /** Driver calls with their status (0 is success). */
  datatype Call =
    | Create(h: nat, size: nat, st: int)
    | Map(addr: nat, size: nat, h: nat, st: int)
    | Unmap(addr: nat, size: nat, st: int)
    | Release(h: nat, st: int)
    | SetAccess(addr: nat, st: int)
    | Memset(addr: nat, st: int)

  /** `at` lists where the chunks start, each right behind the one before it, and where the last one ends. */
  ghost predicate Laid(at: seq<nat>, base: nat, sizes: seq<nat>) {
    && |at| == |sizes| + 1 && at[0] == base
    && forall i {:trigger sizes[i]} :: 0 <= i < |sizes| ==> at[i + 1] == at[i] + sizes[i]
  }

  /** There is exactly one layout: chunk i starts behind the sizes of the chunks before it. */
  lemma {:induction false} LaidIff(at: seq<nat>, base: nat, sizes: seq<nat>)
    ensures Laid(at, base, sizes) <==> |at| == |sizes| + 1 && forall i :: 0 <= i <= |sizes| ==>
        at[i] == base + Sum(sizes[..i])
  {
    if Laid(at, base, sizes) {
      for i := 0 to |sizes|
        invariant forall j :: 0 <= j <= i ==> at[j] == base + Sum(sizes[..j])
      {
        SumStep(sizes, i);
        assert sizes[i] == sizes[i];
      }
    }
    if |at| == |sizes| + 1 && forall i :: 0 <= i <= |sizes| ==> at[i] == base + Sum(sizes[..i]) {
      assert sizes[..0] == [];
      forall i | 0 <= i < |sizes| ensures at[i + 1] == at[i] + sizes[i] {
        SumStep(sizes, i);
      }
    }
  }

  ghost predicate Creates(cs: seq<Call>, hs: seq<nat>, sizes: seq<nat>, n: nat) {
    |cs| == n <= |hs| == |sizes| && forall i :: 0 <= i < n ==> cs[i] == Create(hs[i], sizes[i], 0)
  }

  ghost predicate Mappings(cs: seq<Call>, at: seq<nat>, hs: seq<nat>, sizes: seq<nat>, n: nat) {
    |cs| == n <= |hs| == |sizes| && n <= |at| && forall i :: 0 <= i < n ==> cs[i] == Map(at[i], sizes[i], hs[i], 0)
  }

  /** The calls of the map loop up to the first failure, or all of them and those that open and zero the range. */
  ghost predicate MapCalls(cs: seq<Call>, out: Outcome, base: nat, at: seq<nat>, hs: seq<nat>, sizes: seq<nat>,
                           err: int) {
    if out.MapFailed? then
      && out.i < |at| && out.i < |hs| == |sizes|
      && |cs| == out.i + 1 && Mappings(cs[..out.i], at, hs, sizes, out.i)
      && cs[out.i] == Map(at[out.i], sizes[out.i], hs[out.i], err)
    else
      && |hs| <= |cs| && Mappings(cs[..|hs|], at, hs, sizes, |hs|)
      && cs[|hs|..] == if out.AccessFailed? then [SetAccess(base, err)] else [SetAccess(base, 0), Memset(base, err)]
  }

  /** One unmap attempt for each of the first n chunks, at the offsets used for mapping. */
  ghost predicate Unmaps(cs: seq<Call>, at: seq<nat>, sizes: seq<nat>, n: nat) {
    |cs| == n <= |sizes| && n <= |at| && forall i :: 0 <= i < n ==> cs[i] == Unmap(at[i], sizes[i], Status(cs[i]))
  }

  /** One release attempt for each of the first n handles. */
  ghost predicate Releases(cs: seq<Call>, hs: seq<nat>, n: nat) {
    |cs| == n <= |hs| && forall i :: 0 <= i < n ==> cs[i] == Release(hs[i], Status(cs[i]))
  }

  function Status(c: Call): int {
    c.st
  }

  ghost predicate AllOk(cs: seq<Call>) {
    forall i :: 0 <= i < |cs| ==> Status(cs[i]) == 0
  }

  /** Handles left after the release attempts. */
  ghost function AfterReleases(live: set<nat>, cs: seq<Call>): set<nat> {
    if |cs| == 0 then live
    else
      var l := AfterReleases(live, cs[..|cs| - 1]);
      var c := cs[|cs| - 1];
      if c.Release? && c.st == 0 then l - {c.h} else l
  }

  ghost function AfterUnmaps(maps: map<nat, (nat, nat)>, cs: seq<Call>): map<nat, (nat, nat)> {
    if |cs| == 0 then maps
    else
      var m := AfterUnmaps(maps, cs[..|cs| - 1]);
      var c := cs[|cs| - 1];
      if c.Unmap? && c.st == 0 then m - {c.addr} else m
  }

  /** The first status that is not 0. */
  ghost function FirstError(cs: seq<Call>): int {
    if |cs| == 0 then 0
    else if FirstError(cs[..|cs| - 1]) != 0 then FirstError(cs[..|cs| - 1])
    else Status(cs[|cs| - 1])
  }

  ghost function Held(hs: seq<nat>, n: nat): set<nat>
    requires n <= |hs|
  {
    set i | 0 <= i < n :: hs[i]
  }

  /** The chunks of an allocation, as the driver records them. */
  ghost function ChunkMaps(at: seq<nat>, hs: seq<nat>, sizes: seq<nat>, n: nat): map<nat, (nat, nat)>
    requires n <= |hs| == |sizes| && n <= |at|
  {
    if n == 0 then map[]
    else ChunkMaps(at, hs, sizes, n - 1)[at[n - 1] := (sizes[n - 1], hs[n - 1])]
  }

  ghost predicate Distinct(hs: seq<nat>, n: nat)
    requires n <= |hs|
  {
    forall i, j :: 0 <= i < j < n ==> hs[i] != hs[j]
  }

  /** Every chunk has its own new handle and is mapped behind the one before it; nothing else changed. */
  ghost predicate AllMapped(d: Dev, d': Dev, at: seq<nat>, hs: seq<nat>, sizes: seq<nat>) {
    && |hs| == |sizes| <= |at| && Distinct(hs, |hs|) && Held(hs, |hs|) !! d.live
    && ChunkMaps(at, hs, sizes, |hs|).Keys !! d.maps.Keys
    && d' == Dev(d.live + Held(hs, |hs|), d.maps + ChunkMaps(at, hs, sizes, |hs|))
  }

  /** How a call of create_and_map ended. `Pending` is entry with an error already recorded. */
  datatype Outcome =
    | Mapped
    | CreateFailed(i: nat)
    | MapFailed(i: nat)
    | AccessFailed
    | MemsetFailed
    | Pending

  lemma {:induction false} ReleaseRollback(live: set<nat>, hs: seq<nat>, n: nat, cs: seq<Call>)
    requires Releases(cs, hs, n) && AllOk(cs)
    ensures AfterReleases(live, cs) == live - Held(hs, n)
  {
    if n > 0 {
      assert forall i :: 0 <= i < n - 1 ==> cs[..n - 1][i] == cs[i];
      ReleaseRollback(live, hs, n - 1, cs[..n - 1]);
      assert cs[n - 1] == Release(hs[n - 1], Status(cs[n - 1])) && Status(cs[n - 1]) == 0;
      assert Held(hs, n) == Held(hs, n - 1) + {hs[n - 1]};
    }
  }

  lemma {:induction false} UnmapRollback(maps: map<nat, (nat, nat)>, at: seq<nat>, hs: seq<nat>, sizes: seq<nat>,
                                         n: nat, cs: seq<Call>)
    requires |hs| == |sizes| <= |at| && Unmaps(cs, at, sizes, n) && AllOk(cs)
    ensures AfterUnmaps(maps, cs) == maps - ChunkMaps(at, hs, sizes, n).Keys
  {
    if n > 0 {
      assert forall i :: 0 <= i < n - 1 ==> cs[..n - 1][i] == cs[i];
      UnmapRollback(maps, at, hs, sizes, n - 1, cs[..n - 1]);
      assert cs[n - 1] == Unmap(at[n - 1], sizes[n - 1], Status(cs[n - 1])) && Status(cs[n - 1]) == 0;
    }
  }

  lemma Join(a: seq<Call>, b: seq<Call>, c: seq<Call>)
    ensures a + b + c == a + (b + c) && a + [] == a
  {
  }

  lemma Halves(a: seq<Call>, b: seq<Call>)
    ensures (a + b)[..|a|] == a && (a + b)[|a|..] == b
  {
  }

  lemma JoinMiddle(a: seq<Call>, b: seq<Call>, c: seq<Call>, d: seq<Call>)
    ensures a + b + [] + c + d == a + (b + c) + d && a + b + [] + c == a + (b + c) + []
  {
    Join(a, b, c);
    Join(a + b, [], []);
    Join(a + (b + c), [], []);
  }

  class Allocator {
    var dev: Dev
    var errorCode: int
    ghost var log: seq<Call>

    constructor ()
      ensures dev == Dev({}, map[]) && errorCode == 0 && log == []
    {
      dev, errorCode, log := Dev({}, map[]), 0, [];
    }

    method Failure() returns (st: int)
      ensures st != 0
    {
      st := *;
      if st == 0 {
        st := 1;
      }
    }

    /** CUDA_CHECK: an error is recorded, a success clears nothing. */
    method Check(st: int)
      modifies this`errorCode
      ensures errorCode == if st != 0 then st else old(errorCode)
    {
      if st != 0 {
        errorCode := st;
      }
    }

    method EnsureContext()
      modifies this`errorCode
      ensures errorCode == old(errorCode) || errorCode != 0
    {
      if * {
        var st := Failure();
        Check(st);
      }
    }

    // --- Driver calls ------------------------------------------------------------------------------------------------

    method MemCreate(size: nat) returns (h: nat, st: int)
      modifies this`dev, this`log
      ensures log == old(log) + [Create(h, size, st)]
      ensures dev == if st == 0 then old(dev).(live := old(dev).live + {h}) else old(dev)
      ensures st == 0 ==> h !in old(dev).live
    {
      h :| h !in dev.live by {
        var n := AboveAll(dev.live);
        assert n !in dev.live;
      }
      st := 0;
      if * {
        st := Failure();
      } else {
        dev := dev.(live := dev.live + {h});
      }
      log := log + [Create(h, size, st)];
    }

    method MemMap(addr: nat, size: nat, h: nat) returns (st: int)
      modifies this`dev, this`log
      ensures log == old(log) + [Map(addr, size, h, st)]
      ensures dev == if st == 0 then old(dev).(maps := old(dev).maps[addr := (size, h)]) else old(dev)
      ensures st == 0 ==> addr !in old(dev).maps
    {
      st := Failure();
      if addr !in dev.maps {
        if * {
          st := 0;
          dev := dev.(maps := dev.maps[addr := (size, h)]);
        }
      }
      log := log + [Map(addr, size, h, st)];
    }

    method MemUnmap(addr: nat, size: nat) returns (st: int)
      modifies this`dev, this`log
      ensures log == old(log) + [Unmap(addr, size, st)]
      ensures dev == if st == 0 then old(dev).(maps := old(dev).maps - {addr}) else old(dev)
      ensures st == 0 ==> addr in old(dev).maps && old(dev).maps[addr].0 == size
    {
      st := Failure();
      if addr in dev.maps && dev.maps[addr].0 == size {
        if * {
          st := 0;
          dev := dev.(maps := dev.maps - {addr});
        }
      }
      log := log + [Unmap(addr, size, st)];
    }

    method MemRelease(h: nat) returns (st: int)
      modifies this`dev, this`log
      ensures log == old(log) + [Release(h, st)]
      ensures dev == if st == 0 then old(dev).(live := old(dev).live - {h}) else old(dev)
      ensures st == 0 ==> h in old(dev).live
    {
      st := Failure();
      if h in dev.live {
        if * {
          st := 0;
          dev := dev.(live := dev.live - {h});
        }
      }
      log := log + [Release(h, st)];
    }

    method MemSetAccess(addr: nat) returns (st: int)
      modifies this`log
      ensures log == old(log) + [SetAccess(addr, st)]
    {
      st := *;
      log := log + [SetAccess(addr, st)];
    }

    method MemZero(addr: nat) returns (st: int)
      modifies this`log
      ensures log == old(log) + [Memset(addr, st)]
    {
      st := *;
      log := log + [Memset(addr, st)];
    }

    // --- Loops of the allocator --------------------------------------------------------------------------------------

    /** Release the first n handles, ignoring failures. */
    method ReleaseFirst(handles: array<nat>, n: nat) returns (ghost cs: seq<Call>)
      requires n <= handles.Length
      modifies this`dev, this`log
      ensures Releases(cs, handles[..], n) && log == old(log) + cs
      ensures dev == old(dev).(live := AfterReleases(old(dev).live, cs))
    {
      cs := [];
      for j := 0 to n
        invariant Releases(cs, handles[..], j) && log == old(log) + cs
        invariant dev == old(dev).(live := AfterReleases(old(dev).live, cs))
      {
        var st := MemRelease(handles[j]);
        ghost var more := cs + [Release(handles[j], st)];
        assert more[..j] == cs;
        cs := more;
      }
    }

    /** Unmap the first n chunks, ignoring failures. */
    method UnmapFirst(base: nat, sizes: array<nat>, n: nat, ghost at: seq<nat>) returns (ghost cs: seq<Call>)
      requires n <= sizes.Length && Laid(at, base, sizes[..])
      modifies this`dev, this`log
      ensures Unmaps(cs, at, sizes[..], n) && log == old(log) + cs
      ensures dev == old(dev).(maps := AfterUnmaps(old(dev).maps, cs))
    {
      cs := [];
      ghost var ss := sizes[..];
      var unmappedSize := 0;
      for j := 0 to n
        invariant base + unmappedSize == at[j]
        invariant Unmaps(cs, at, ss, j) && log == old(log) + cs
        invariant dev == old(dev).(maps := AfterUnmaps(old(dev).maps, cs))
      {
        var st := MemUnmap(base + unmappedSize, sizes[j]);
        ghost var more := cs + [Unmap(base + unmappedSize, sizes[j], st)];
        assert more[..j] == cs;
        cs := more;
        assert ss[j] == sizes[j];
        unmappedSize := unmappedSize + sizes[j];
      }
    }

    /** Create every chunk's memory. On the first failure the handles created so far are released. An error recorded
        earlier looks like a failure of the first create. */
    method CreateAll(handles: array<nat>, sizes: array<nat>)
        returns (ghost i: nat, ghost made: seq<Call>, ghost bad: seq<Call>, ghost released: seq<Call>)
      requires handles != sizes && handles.Length == sizes.Length
      modifies this, handles
      ensures i <= handles.Length && Creates(made, handles[..], sizes[..], i)
          && log == old(log) + (made + bad) + released
      ensures Distinct(handles[..], i) && Held(handles[..], i) !! old(dev).live
      ensures errorCode == 0 ==> old(errorCode) == 0
      ensures errorCode == 0 ==> i == handles.Length && bad == released == []
      ensures errorCode == 0 ==> dev == old(dev).(live := old(dev).live + Held(handles[..], i))
      ensures old(errorCode) == 0 && errorCode != 0 ==>
        && i < handles.Length && bad == [Create(handles[i], sizes[i], errorCode)] && Releases(released, handles[..], i)
        && dev == old(dev).(live := AfterReleases(old(dev).live + Held(handles[..], i), released))
      ensures old(errorCode) != 0 && handles.Length > 0 ==>
        && i == 0 && released == [] && |bad| == 1 && bad == [Create(handles[0], sizes[0], Status(bad[0]))]
        && dev == (if Status(bad[0]) == 0 then old(dev).(live := old(dev).live + {handles[0]}) else old(dev))
        && (Status(bad[0]) == 0 ==> handles[0] !in old(dev).live)
      ensures handles.Length == 0 ==> dev == old(dev) && errorCode == old(errorCode) && bad == released == []
    {
      made, bad, released, i := [], [], [], 0;
      for k := 0 to handles.Length
        invariant errorCode == old(errorCode) && (k > 0 ==> errorCode == 0) && i == k && bad == released == []
        invariant Creates(made, handles[..], sizes[..], k) && log == old(log) + made
        invariant Distinct(handles[..], k) && Held(handles[..], k) !! old(dev).live
        invariant dev == old(dev).(live := old(dev).live + Held(handles[..], k))
      {
        ghost var hs := handles[..];
        var h, st := MemCreate(sizes[k]);
        handles[k] := h;
        assert forall x :: 0 <= x < k ==> handles[..][x] == hs[x];
        assert Held(handles[..], k) == Held(hs, k);
        Join(old(log), made, [Create(h, sizes[k], st)]);
        Check(st);
        if errorCode != 0 {
          bad := [Create(h, sizes[k], st)];
          released := ReleaseFirst(handles, k);
          return;
        }
        made, i := made + [Create(h, sizes[k], 0)], k + 1;
        assert Held(handles[..], k + 1) == Held(handles[..], k) + {h};
      }
    }

    /** Map chunk after chunk, each behind the one before it, up to the first failure (at chunk n). `hs` and `ss` are
        the contents of the two arrays. */
    method MapChunks(base: nat, handles: array<nat>, sizes: array<nat>, ghost at: seq<nat>, ghost hs: seq<nat>,
                     ghost ss: seq<nat>)
        returns (n: nat, ghost made: seq<Call>, ghost bad: seq<Call>)
      requires handles.Length == sizes.Length && errorCode == 0 && hs == handles[..] && ss == sizes[..]
          && Laid(at, base, ss)
      modifies this
      ensures n <= |hs| && Mappings(made, at, hs, ss, n) && log == old(log) + (made + bad)
      ensures ChunkMaps(at, hs, ss, n).Keys !! old(dev).maps.Keys
      ensures dev == old(dev).(maps := old(dev).maps + ChunkMaps(at, hs, ss, n))
      ensures errorCode == 0 ==> n == |hs| && bad == []
      ensures errorCode != 0 ==> n < |hs| && bad == [Map(at[n], ss[n], hs[n], errorCode)]
    {
      n, made, bad := 0, [], [];
      var allocatedSize := 0;
      while n < handles.Length
        invariant n <= handles.Length && base + allocatedSize == at[n] && errorCode == 0 && bad == []
        invariant Mappings(made, at, hs, ss, n) && log == old(log) + made
        invariant ChunkMaps(at, hs, ss, n).Keys !! old(dev).maps.Keys
        invariant dev == old(dev).(maps := old(dev).maps + ChunkMaps(at, hs, ss, n))
      {
        var size, handle := sizes[n], handles[n];
        assert size == ss[n] && handle == hs[n];
        var st := MemMap(base + allocatedSize, size, handle);
        ghost var call := Map(base + allocatedSize, size, handle, st);
        Join(old(log), made, [call]);
        Check(st);
        if errorCode != 0 {
          bad := [call];
          return;
        }
        ChunkMapped(old(dev).maps, at, hs, ss, made, n, call);
        made, n, allocatedSize := made + [call], n + 1, allocatedSize + size;
      }
    }

    /** Map every chunk. On a failure the mapped chunks are unmapped and all handles released. */
    method MapAll(base: nat, handles: array<nat>, sizes: array<nat>, ghost at: seq<nat>, ghost hs: seq<nat>,
                  ghost ss: seq<nat>)
        returns (ghost i: nat, ghost made: seq<Call>, ghost bad: seq<Call>, ghost unmapped: seq<Call>,
                 ghost released: seq<Call>)
      requires handles.Length == sizes.Length && errorCode == 0 && hs == handles[..] && ss == sizes[..]
          && Laid(at, base, ss)
      modifies this
      ensures i <= |hs| && Mappings(made, at, hs, ss, i) && log == old(log) + (made + bad) + (unmapped + released)
      ensures ChunkMaps(at, hs, ss, i).Keys !! old(dev).maps.Keys
      ensures errorCode == 0 ==>
        && i == |hs| && bad == unmapped == released == []
        && dev == old(dev).(maps := old(dev).maps + ChunkMaps(at, hs, ss, i))
      ensures errorCode != 0 ==>
        && i < |hs| && bad == [Map(at[i], ss[i], hs[i], errorCode)]
        && Unmaps(unmapped, at, ss, i) && Releases(released, hs, |hs|)
        && dev == Dev(AfterReleases(old(dev).live, released),
                      AfterUnmaps(old(dev).maps + ChunkMaps(at, hs, ss, i), unmapped))
    {
      var n;
      n, made, bad := MapChunks(base, handles, sizes, at, hs, ss);
      i, unmapped, released := n, [], [];
      if errorCode != 0 {
        unmapped, released := Rollback(base, handles, sizes, at, hs, ss, n);
      }
    }

    /** Cleanup after the failure to map chunk n. */
    method Rollback(base: nat, handles: array<nat>, sizes: array<nat>, ghost at: seq<nat>, ghost hs: seq<nat>,
                    ghost ss: seq<nat>, n: nat)
        returns (ghost unmapped: seq<Call>, ghost released: seq<Call>)
      requires n <= sizes.Length && hs == handles[..] && ss == sizes[..] && Laid(at, base, ss)
      modifies this`dev, this`log
      ensures log == old(log) + (unmapped + released)
      ensures Unmaps(unmapped, at, ss, n) && Releases(released, hs, |hs|)
      ensures dev == Dev(AfterReleases(old(dev).live, released), AfterUnmaps(old(dev).maps, unmapped))
    {
      unmapped := UnmapFirst(base, sizes, n, at);
      released := ReleaseFirst(handles, handles.Length);
      Join(old(log), unmapped, released);
    }

    /** Opening the mapped range for access and zeroing it. A failure here leaves everything mapped. */
    method OpenAndZero(base: nat) returns (ghost out: Outcome, ghost tried: seq<Call>)
      requires errorCode == 0
      modifies this`errorCode, this`log
      ensures log == old(log) + tried
      ensures out == if errorCode == 0 then Mapped else if |tried| == 1 then AccessFailed else MemsetFailed
      ensures tried == if out.AccessFailed? then [SetAccess(base, errorCode)]
          else [SetAccess(base, 0), Memset(base, errorCode)]
    {
      var access := MemSetAccess(base);
      tried := [SetAccess(base, access)];
      Check(access);
      if errorCode != 0 {
        out := AccessFailed;
        return;
      }
      var zeroed := MemZero(base);
      tried := tried + [Memset(base, zeroed)];
      Check(zeroed);
      out := if errorCode != 0 then MemsetFailed else Mapped;
    }

    /** create_and_map. With no error pending it either maps all chunks, or (when a create or map fails and its cleanup
        calls succeed) leaves the device exactly as it was; failures after the map loop leave the chunks mapped. With an
        error pending it creates the first chunk and forgets it. */
    method CreateAndMap(base: nat, handles: array<nat>, sizes: array<nat>, ghost at: seq<nat>)
        returns (ghost out: Outcome, ghost tried: seq<Call>, ghost cleanup: seq<Call>)
      requires handles != sizes && handles.Length == sizes.Length && Laid(at, base, sizes[..])
      modifies this, handles
      ensures log == old(log) + tried + cleanup
      ensures out.Mapped? <==> errorCode == 0
      ensures old(errorCode) != 0 ==> out.Pending?
      ensures out.Pending? ==> dev == old(dev) || handles.Length > 0
      ensures out.Mapped? || out.AccessFailed? || out.MemsetFailed? ==>
        && cleanup == [] && AllMapped(old(dev), dev, at, handles[..], sizes[..])
      ensures out.CreateFailed? ==> out.i < handles.Length && Releases(cleanup, handles[..], out.i)
      ensures out.CreateFailed? ==>
        && |tried| == out.i + 1 && Creates(tried[..out.i], handles[..], sizes[..], out.i)
        && tried[out.i] == Create(handles[out.i], sizes[out.i], errorCode)
      ensures out.MapFailed? ==>
        && out.i < handles.Length && |cleanup| == out.i + handles.Length
        && Unmaps(cleanup[..out.i], at, sizes[..], out.i) && Releases(cleanup[out.i..], handles[..], handles.Length)
      ensures !out.Pending? && !out.CreateFailed? ==>
        && handles.Length <= |tried| && Creates(tried[..handles.Length], handles[..], sizes[..], handles.Length)
        && MapCalls(tried[handles.Length..], out, base, at, handles[..], sizes[..], errorCode)
      ensures (out.CreateFailed? || out.MapFailed?) && AllOk(cleanup) ==> dev == old(dev)
      ensures out.Pending? && handles.Length > 0 ==>
        && cleanup == [] && |tried| == 1 && tried == [Create(handles[0], sizes[0], Status(tried[0]))]
        && (Status(tried[0]) == 0 ==>
            handles[0] !in old(dev).live && dev == old(dev).(live := old(dev).live + {handles[0]}))
    {
      EnsureContext();
      ghost var dev0, log0 := dev, log;
      out, tried, cleanup := CreateOrUndo(handles, sizes);
      if errorCode != 0 && handles.Length > 0 {
        return;
      }
      if errorCode != 0 {
        // No chunks and an error pending: the access call is still made, then the pending error is noticed.
        var access := MemSetAccess(base);
        JoinMiddle(log0, tried, [SetAccess(base, access)], []);
        tried := tried + [SetAccess(base, access)];
        Check(access);
        return;
      }
      ghost var hs, ss, more := handles[..], sizes[..], [];
      out, more, cleanup := MapOpenZero(base, handles, sizes, at, hs, ss, dev0);
      assert handles[..] == hs && sizes[..] == ss;
      JoinMiddle(log0, tried, more, cleanup);
      Halves(tried, more);
      tried := tried + more;
    }

    /** The first half of create_and_map: the create loop with its cleanup. */
    method CreateOrUndo(handles: array<nat>, sizes: array<nat>)
        returns (ghost out: Outcome, ghost tried: seq<Call>, ghost cleanup: seq<Call>)
      requires handles != sizes && handles.Length == sizes.Length
      modifies this, handles
      ensures log == old(log) + tried + cleanup
      ensures errorCode == 0 ==>
        && old(errorCode) == 0 && cleanup == [] && out.Mapped? && Creates(tried, handles[..], sizes[..], handles.Length)
        && Distinct(handles[..], handles.Length) && Held(handles[..], handles.Length) !! old(dev).live
        && dev == old(dev).(live := old(dev).live + Held(handles[..], handles.Length))
      ensures errorCode != 0 ==> out.Pending? || out.CreateFailed?
      ensures out.Pending? <==> old(errorCode) != 0
      ensures out.CreateFailed? ==> out.i < handles.Length && Releases(cleanup, handles[..], out.i)
      ensures out.CreateFailed? ==>
        && |tried| == out.i + 1 && Creates(tried[..out.i], handles[..], sizes[..], out.i)
        && tried[out.i] == Create(handles[out.i], sizes[out.i], errorCode)
      ensures out.CreateFailed? && AllOk(cleanup) ==> dev == old(dev)
      ensures out.Pending? && handles.Length > 0 ==>
        && cleanup == [] && |tried| == 1 && tried == [Create(handles[0], sizes[0], Status(tried[0]))]
        && (Status(tried[0]) == 0 ==>
            handles[0] !in old(dev).live && dev == old(dev).(live := old(dev).live + {handles[0]}))
      ensures out.Pending? && handles.Length == 0 ==> tried == [] && cleanup == [] && dev == old(dev)
    {
      ghost var pending, dev0 := errorCode, dev;
      ghost var i, made, bad, released := CreateAll(handles, sizes);
      tried, cleanup := made + bad, released;
      out := if pending != 0 then Pending else if errorCode != 0 then CreateFailed(i) else Mapped;
      if pending == 0 && errorCode != 0 {
        CreateUndone(dev0.live, handles[..], i, released);
        assert tried[..i] == made;
      } else if pending == 0 {
        assert made + bad == made;
      } else {
        assert made == [] && made + bad == bad;
      }
    }

    /** The second half of create_and_map, with all handles created. */
    method MapOpenZero(base: nat, handles: array<nat>, sizes: array<nat>, ghost at: seq<nat>, ghost hs: seq<nat>,
                       ghost ss: seq<nat>, ghost dev0: Dev)
        returns (ghost out: Outcome, ghost tried: seq<Call>, ghost cleanup: seq<Call>)
      requires handles.Length == sizes.Length && errorCode == 0 && hs == handles[..] && ss == sizes[..]
          && Laid(at, base, ss)
      requires Distinct(hs, |hs|) && Held(hs, |hs|) !! dev0.live
      requires dev == dev0.(live := dev0.live + Held(hs, |hs|))
      modifies this
      ensures log == old(log) + tried + cleanup
      ensures out.Mapped? <==> errorCode == 0
      ensures !out.Pending? && !out.CreateFailed? && MapCalls(tried, out, base, at, hs, ss, errorCode)
      ensures !out.MapFailed? ==> cleanup == [] && AllMapped(dev0, dev, at, hs, ss)
      ensures out.MapFailed? ==>
        && out.i < |hs| && |cleanup| == out.i + |hs|
        && Unmaps(cleanup[..out.i], at, ss, out.i) && Releases(cleanup[out.i..], hs, |hs|)
        && (AllOk(cleanup) ==> dev == dev0)
    {
      ghost var log0 := log;
      ghost var j, mapped, badMap, unmapped, released := MapAll(base, handles, sizes, at, hs, ss);
      tried, cleanup := mapped + badMap, unmapped + released;
      if errorCode != 0 {
        out := MapFailed(j);
        MapUndone(dev0.live, dev0.maps, at, hs, ss, j, unmapped, released);
        Halves(unmapped, released);
        assert tried[..j] == mapped;
        return;
      }
      assert tried == mapped;
      ghost var more;
      out, more := OpenAndZero(base);
      Join(log0, tried, more);
      tried := tried + more;
      assert tried[..|hs|] == mapped && tried[|hs|..] == more;
    }

    /** unmap_and_release: every unmap and every release is attempted once, whatever fails, and the first failing status
        is the one recorded. */
    method UnmapAndRelease(base: nat, handles: array<nat>, sizes: array<nat>, ghost at: seq<nat>)
        returns (ghost pending: int, ghost unmapped: seq<Call>, ghost released: seq<Call>)
      requires handles.Length == sizes.Length && Laid(at, base, sizes[..])
      modifies this
      ensures pending == old(errorCode) || pending != 0
      ensures Unmaps(unmapped, at, sizes[..], sizes.Length) && Releases(released, handles[..], handles.Length)
      ensures log == old(log) + (unmapped + released)
      ensures dev == Dev(AfterReleases(old(dev).live, released), AfterUnmaps(old(dev).maps, unmapped))
      ensures errorCode == if FirstError(unmapped + released) != 0 then FirstError(unmapped + released) else pending
    {
      EnsureContext();
      pending := errorCode;
      var firstError;
      firstError, unmapped := UnmapEach(base, sizes, at);
      firstError, released := ReleaseEach(handles, firstError);
      Join(old(log), unmapped, released);
      FirstErrorOf(unmapped, released);
      if firstError != 0 {
        Check(firstError);
      }
    }

    method UnmapEach(base: nat, sizes: array<nat>, ghost at: seq<nat>) returns (firstError: int, ghost cs: seq<Call>)
      requires Laid(at, base, sizes[..])
      modifies this`dev, this`log
      ensures Unmaps(cs, at, sizes[..], sizes.Length) && log == old(log) + cs && firstError == FirstError(cs)
      ensures dev == old(dev).(maps := AfterUnmaps(old(dev).maps, cs))
    {
      firstError, cs := 0, [];
      var allocatedSize := 0;
      ghost var ss := sizes[..];
      for i := 0 to sizes.Length
        invariant base + allocatedSize == at[i] && firstError == FirstError(cs)
        invariant Unmaps(cs, at, ss, i) && log == old(log) + cs
        invariant dev == old(dev).(maps := AfterUnmaps(old(dev).maps, cs))
      {
        var st := MemUnmap(base + allocatedSize, sizes[i]);
        ghost var more := cs + [Unmap(base + allocatedSize, sizes[i], st)];
        assert more[..i] == cs;
        cs := more;
        if st != 0 && firstError == 0 {
          firstError := st;
        }
        assert ss[i] == sizes[i];
        allocatedSize := allocatedSize + sizes[i];
      }
    }

    method ReleaseEach(handles: array<nat>, before: int) returns (firstError: int, ghost cs: seq<Call>)
      modifies this`dev, this`log
      ensures Releases(cs, handles[..], handles.Length) && log == old(log) + cs
      ensures firstError == if before != 0 then before else FirstError(cs)
      ensures dev == old(dev).(live := AfterReleases(old(dev).live, cs))
    {
      firstError, cs := before, [];
      for i := 0 to handles.Length
        invariant firstError == if before != 0 then before else FirstError(cs)
        invariant Releases(cs, handles[..], i) && log == old(log) + cs
        invariant dev == old(dev).(live := AfterReleases(old(dev).live, cs))
      {
        var st := MemRelease(handles[i]);
        ghost var more := cs + [Release(handles[i], st)];
        assert more[..i] == cs;
        cs := more;
        if st != 0 && firstError == 0 {
          firstError := st;
        }
      }
    }
  }

  lemma {:induction false} FirstErrorOf(a: seq<Call>, b: seq<Call>)
    ensures FirstError(a + b) == if FirstError(a) != 0 then FirstError(a) else FirstError(b)
  {
    if b == [] {
      assert a + b == a;
    } else {
      FirstErrorOf(a, b[..|b| - 1]);
      assert (a + b)[..|a + b| - 1] == a + b[..|b| - 1];
    }
  }

  lemma ChunkMapped(maps: map<nat, (nat, nat)>, at: seq<nat>, hs: seq<nat>, sizes: seq<nat>, made: seq<Call>, k: nat,
                    call: Call)
    requires k < |hs| == |sizes| < |at| && Mappings(made, at, hs, sizes, k)
    requires call == Map(at[k], sizes[k], hs[k], 0)
    ensures Mappings(made + [call], at, hs, sizes, k + 1)
    ensures (maps + ChunkMaps(at, hs, sizes, k))[call.addr := (sizes[k], hs[k])]
        == maps + ChunkMaps(at, hs, sizes, k + 1)
    ensures ChunkMaps(at, hs, sizes, k + 1).Keys == ChunkMaps(at, hs, sizes, k).Keys + {call.addr}
  {
  }

  /** Releasing what was created restores the set of live handles. */
  lemma CreateUndone(live: set<nat>, hs: seq<nat>, i: nat, released: seq<Call>)
    requires i <= |hs| && Releases(released, hs, i) && Held(hs, i) !! live
    ensures AllOk(released) ==> AfterReleases(live + Held(hs, i), released) == live
  {
    if AllOk(released) {
      ReleaseRollback(live + Held(hs, i), hs, i, released);
    }
  }

  lemma MapUndone(live: set<nat>, maps: map<nat, (nat, nat)>, at: seq<nat>, hs: seq<nat>, sizes: seq<nat>, j: nat,
                  unmapped: seq<Call>, released: seq<Call>)
    requires j <= |hs| == |sizes| <= |at| && Held(hs, |hs|) !! live && ChunkMaps(at, hs, sizes, j).Keys !! maps.Keys
    requires Unmaps(unmapped, at, sizes, j) && Releases(released, hs, |hs|)
    ensures AllOk(unmapped + released) ==> AfterReleases(live + Held(hs, |hs|), released) == live
    ensures AllOk(unmapped + released) ==> AfterUnmaps(maps + ChunkMaps(at, hs, sizes, j), unmapped) == maps
  {
    if AllOk(unmapped + released) {
      assert forall i :: 0 <= i < |unmapped| ==> unmapped[i] == (unmapped + released)[i];
      assert forall i :: 0 <= i < |released| ==> released[i] == (unmapped + released)[|unmapped| + i];
      ReleaseRollback(live + Held(hs, |hs|), hs, |hs|, released);
      UnmapRollback(maps + ChunkMaps(at, hs, sizes, j), at, hs, sizes, j, unmapped);
    }
  }
}
