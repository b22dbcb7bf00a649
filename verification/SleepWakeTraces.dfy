/** Runs from the empty system in which the lifecycle's guarantees fail, step by step. */
module SleepWakeTraces {
  import opened Wrappers
  import opened SleepWake
  import opened SleepWakeRuns
  import opened SleepWakeMaps
  import opened SleepWakeLimits

  ghost predicate Reachable(g: nat, s: Sys)
    requires g > 0
  {
    exists ss, acts :: Run(g, ss, acts) && ss[|acts|] == s
  }

  function Empty(): Sys {
    Sys(map[], map[], map[], false, 0, None, map[])
  }

  lemma EmptyReachable(g: nat)
    requires g > 0
    ensures Reachable(g, Empty())
  {
    var ss: seq<Sys>, acts: seq<Action> := [Empty()], [];
    assert Run(g, ss, acts);
  }

  lemma Then(g: nat, s: Sys, s': Sys, act: Action)
    requires g > 0 && Reachable(g, s) && Next(g, s, s', act)
    ensures Reachable(g, s')
  {
    var ss, acts :| Run(g, ss, acts) && ss[|acts|] == s;
    var ss', acts' := ss + [s'], acts + [act];
    forall i | 0 <= i < |acts'|
      ensures Next(g, ss'[i], ss'[i + 1], acts'[i])
    {
      if i < |acts| {
        assert Next(g, ss[i], ss[i + 1], acts[i]);
      }
    }
    assert Run(g, ss', acts');
  }

  function With(s: Sys, x: nat, a: Alloc): Sys {
    s.(allocs := s.allocs[x := a])
  }

  lemma WithWith(s: Sys, x: nat, a: Alloc, b: Alloc)
    ensures With(s, x, a).allocs[x := b] == With(s, x, b).allocs
  {
  }

  /** A step that only moves the job on. */
  lemma Quiet(g: nat, s: Sys, x: nat, a: Alloc, op: Op, a': Alloc)
    requires g > 0 && Reachable(g, With(s, x, a)) && Allowed(g, a, op)
    requires Effect(g, s.err, s.resets, a, op) == Only(a', s.err)
    requires a.job != Idle && (Locks(a'.job) <==> s.lock == Some(x))
    ensures Reachable(g, With(s, x, a'))
  {
    var t, t' := With(s, x, a), With(s, x, a');
    assert t.allocs[x] == a;
    assert t'.allocs == t.allocs[x := a'];
    assert Next(g, t, t', Step(x, op));
    Then(g, t, t', Step(x, op));
  }

  /** A step that changes more: the caller says what the system is afterwards. */
  lemma Does(g: nat, s: Sys, x: nat, a: Alloc, op: Op, s': Sys, m: Move)
    requires g > 0 && Reachable(g, With(s, x, a)) && Allowed(g, a, op) && m == Effect(g, s.err, s.resets, a, op)
    requires Possible(With(s, x, a), x, a, m) && Do(With(s, x, a), x, m) == s'
    ensures Reachable(g, s')
  {
    assert With(s, x, a).allocs[x] == a;
    Then(g, With(s, x, a), s', Step(x, op));
  }

  /** A step that takes nothing from anybody else. */
  lemma DoesOwn(g: nat, s: Sys, x: nat, a: Alloc, op: Op, t: Sys, m: Move)
    requires g > 0 && Reachable(g, With(s, x, a)) && Allowed(g, a, op) && m == Effect(g, s.err, s.resets, a, op)
    requires Possible(With(s, x, a), x, a, m) && Cleared(With(s, x, a), x, m) == With(s, x, a)
    requires t.allocs == s.allocs && t == DoOwn(s, x, m).(allocs := s.allocs)
    ensures Reachable(g, With(t, x, m.a))
  {
    WithWith(s, x, a, m.a);
    assert DoOwn(With(s, x, a), x, m) == With(t, x, m.a);
    Does(g, s, x, a, op, With(t, x, m.a), m);
  }

  /** An allocation of one chunk at base. */
  function One(base: nat, own: map<nat, nat>, bound: map<nat, nat>, done: set<nat>, claim: Claim, since: nat, job: Job,
               phase: Phase): Alloc {
    Alloc(base, 1, [Chunk(base, 1)], own, bound, done, {}, claim, since, job, phase)
  }

  // --- create_and_map ------------------------------------------------------------------------------------------------

  predicate Ready(s: Sys, x: nat, a: Alloc) {
    Filling(a) && a.chunks == [Chunk(a.base, 1)] && a.gone == {} && (Locks(a.job) <==> s.lock == Some(x))
  }

  /** The handle is created and the chunk filed. */
  lemma CreateAndSee(g: nat, s: Sys, x: nat, a: Alloc, h: nat)
    requires g > 0 && Reachable(g, With(s, x, a)) && !s.err && h !in s.live
    requires Ready(s, x, a) && a.own == map[] && a.phase == Creating(0)
    ensures Reachable(g, With(s.(live := s.live[h := Some(x)]), x, a.(own := map[0 := h], phase := Mapping(0))))
  {
    var t, b := s.(live := s.live[h := Some(x)]), a.(phase := Created(0, Some(h)));
    DoesOwn(g, s, x, a, Create(true, h), t, Move(b, Stay, New(h), NoMap, false, false));
    assert a.own[0 := h] == map[0 := h];
    Quiet(g, t, x, b, SeeCreate, a.(own := map[0 := h], phase := Mapping(0)));
  }

  lemma MapChunk(g: nat, s: Sys, x: nat, a: Alloc, h: nat)
    requires g > 0 && Reachable(g, With(s, x, a)) && !s.err && Vacant(s, Chunk(a.base, 1))
    requires Ready(s, x, a) && a.own == map[0 := h] && a.bound == map[] && a.done == {} && a.phase == Mapping(0)
    ensures Reachable(g, With(s.(maps := s.maps[a.base := Binding(1, h, x, 0)]), x,
                              a.(bound := map[0 := h], done := {0}, phase := MapCalled(0))))
  {
    var t, b := s.(maps := s.maps[a.base := Binding(1, h, x, 0)]),
        a.(bound := map[0 := h], done := {0}, phase := MapCalled(0));
    assert a.bound[0 := h] == map[0 := h] && a.done + {0} == {0} && a.gone - {0} == {};
    DoesOwn(g, s, x, a, Map(true), t, Move(b, Stay, Keep, Bind(0, h), false, false));
  }

  lemma TouchAndSee(g: nat, s: Sys, x: nat, a: Alloc, k: nat)
    requires g > 0 && Reachable(g, With(s, x, a)) && !s.err && a.base in s.maps
    requires Ready(s, x, a) && a.phase == Mapping(k) && 1 <= k <= 2
    ensures Reachable(g, With(s, x, a.(done := a.done + {k}, phase := if k == 2 then Returned(true) else Mapping(2))))
  {
    var b := a.(done := a.done + {k}, phase := MapCalled(k));
    DoesOwn(g, s, x, a, Map(true), s, Move(b, Stay, Keep, Touch, false, false));
    Quiet(g, s, x, b, SeeMap, b.(phase := if k == 2 then Returned(true) else Mapping(2)));
  }

  /** create_and_map of one chunk, all calls succeeding. */
  lemma Fill(g: nat, s: Sys, x: nat, a: Alloc, h: nat)
    requires g > 0 && Reachable(g, With(s, x, a)) && !s.err && h !in s.live && Vacant(s, Chunk(a.base, 1))
    requires Ready(s, x, a) && a.own == map[] && a.bound == map[] && a.done == {} && a.phase == Creating(0)
    ensures Reachable(g, With(s.(live := s.live[h := Some(x)], maps := s.maps[a.base := Binding(1, h, x, 0)]), x,
                              a.(own := map[0 := h], bound := map[0 := h], done := {0, 1, 2}, phase := Returned(true))))
  {
    CreateAndSee(g, s, x, a, h);
    var t := s.(live := s.live[h := Some(x)]);
    var b := a.(own := map[0 := h], phase := Mapping(0));
    MapChunk(g, t, x, b, h);
    OpenAndZero(g, t.(maps := s.maps[a.base := Binding(1, h, x, 0)]), x,
                b.(bound := map[0 := h], done := {0}, phase := MapCalled(0)));
  }

  lemma OpenAndZero(g: nat, s: Sys, x: nat, a: Alloc)
    requires g > 0 && Reachable(g, With(s, x, a)) && !s.err && a.base in s.maps
    requires Ready(s, x, a) && a.done == {0} && a.phase == MapCalled(0)
    ensures Reachable(g, With(s, x, a.(done := {0, 1, 2}, phase := Returned(true))))
  {
    Quiet(g, s, x, a, SeeMap, a.(phase := Mapping(1)));
    TouchAndSee(g, s, x, a.(phase := Mapping(1)), 1);
    assert {0} + {1} == {0, 1};
    TouchAndSee(g, s, x, a.(done := {0, 1}, phase := Mapping(2)), 2);
    assert {0, 1} + {2} == {0, 1, 2};
  }

  // --- malloc --------------------------------------------------------------------------------------------------------

  /** A malloc reserves its range and starts creating. */
  lemma Begin(g: nat, s: Sys, x: nat, base: nat)
    requires g > 0 && Reachable(g, s) && !s.err && s.lock != Some(x) && x !in s.allocs
    requires FreeRange(s, base, 1) && base % g == 0
    ensures Reachable(g, With(s.(reserved := s.reserved[base := Range(1, Some(x))]), x,
                              One(base, map[], map[], {}, Held, s.resets, Malloc, Creating(0))))
  {
    var t := s.(reserved := s.reserved[base := Range(1, Some(x))]);
    var a := One(base, map[], map[], {}, Held, s.resets, Malloc, Reserved);
    assert Next(g, s, With(t, x, a), Reserve(x, base, 1, [Chunk(base, 1)], true));
    Then(g, s, With(t, x, a), Reserve(x, base, 1, [Chunk(base, 1)], true));
    Quiet(g, t, x, a, Accept, a.(phase := Creating(0)));
  }

  /** A malloc up to its return. */
  lemma Builds(g: nat, s: Sys, x: nat, base: nat, h: nat)
    requires g > 0 && Reachable(g, s) && !s.err && s.lock != Some(x) && x !in s.allocs
    requires FreeRange(s, base, 1) && base % g == 0 && h !in s.live && Vacant(s, Chunk(base, 1))
    ensures Reachable(g, With(Used(s, x, base, h), x,
                              One(base, map[0 := h], map[0 := h], {0, 1, 2}, Held, s.resets, Malloc, Returned(true))))
  {
    Begin(g, s, x, base);
    Fill(g, s.(reserved := s.reserved[base := Range(1, Some(x))]), x,
         One(base, map[], map[], {}, Held, s.resets, Malloc, Creating(0)), h);
  }

  /** The driver's side of an allocation of one chunk. */
  function Used(s: Sys, x: nat, base: nat, h: nat): Sys {
    s.(reserved := s.reserved[base := Range(1, Some(x))], live := s.live[h := Some(x)],
       maps := s.maps[base := Binding(1, h, x, 0)])
  }

  function Full(base: nat, h: nat, since: nat): Alloc {
    One(base, map[0 := h], map[0 := h], {0, 1, 2}, Held, since, Idle, Awake)
  }

  lemma Mallocs(g: nat, s: Sys, x: nat, base: nat, h: nat)
    requires g > 0 && Reachable(g, s) && !s.err && s.lock != Some(x) && x !in s.allocs
    requires FreeRange(s, base, 1) && base % g == 0 && h !in s.live && Vacant(s, Chunk(base, 1))
    ensures Reachable(g, With(Used(s, x, base, h), x, Full(base, h, s.resets)))
  {
    Builds(g, s, x, base, h);
    Quiet(g, Used(s, x, base, h), x,
          One(base, map[0 := h], map[0 := h], {0, 1, 2}, Held, s.resets, Malloc, Returned(true)),
          Return, Full(base, h, s.resets));
  }

  // --- sleep ---------------------------------------------------------------------------------------------------------

  /** A sleep of a full allocation up to the point where its handle is released. */
  lemma Unmapped(g: nat, s: Sys, x: nat, a: Alloc, h: nat)
    requires g > 0 && Reachable(g, With(s, x, a)) && !s.err && s.lock == None && h in s.live
    requires a == Full(a.base, h, a.since) && a.base in s.maps && s.maps[a.base] == Binding(1, h, x, 0)
    ensures Reachable(g, With(s.(maps := s.maps - {a.base}, lock := Some(x)), x,
                              a.(bound := map[], job := Sleep, phase := Releasing({}, false))))
  {
    var t, b := s.(lock := Some(x)), a.(job := Sleep, phase := Unmapping(0, {}));
    DoesOwn(g, s, x, a, BeginSleep, t, Only(b, false));
    var u, c := t.(maps := s.maps - {a.base}), b.(bound := map[], phase := Releasing({}, false));
    assert a.bound - {0} == map[];
    DoesOwn(g, t, x, b, Unmap(true), u, Move(c, Stay, Keep, Unbind(0), false, false));
  }

  lemma Empties(g: nat, s: Sys, x: nat, a: Alloc, h: nat)
    requires g > 0 && Reachable(g, With(s, x, a)) && !s.err && s.lock == None && h in s.live
    requires a == Full(a.base, h, a.since) && a.base in s.maps && s.maps[a.base] == Binding(1, h, x, 0)
    ensures Reachable(g, With(s.(live := s.live - {h}, maps := s.maps - {a.base}, lock := Some(x)), x,
                              a.(own := map[], bound := map[], job := Sleep, phase := Freeing)))
  {
    Unmapped(g, s, x, a, h);
    var t, b := s.(maps := s.maps - {a.base}, lock := Some(x)),
        a.(bound := map[], job := Sleep, phase := Releasing({}, false));
    var u, c := t.(live := s.live - {h}), b.(own := map[]);
    assert b.own - {0} == map[];
    DoesOwn(g, t, x, b, Release(0, true), u, Move(c, Stay, Destroy(h), NoMap, false, false));
    Quiet(g, u, x, c, Released, c.(phase := Freeing));
  }

  /** ... and the address freed. */
  lemma Vacates(g: nat, s: Sys, x: nat, a: Alloc)
    requires g > 0 && Reachable(g, With(s, x, a)) && !s.err && s.lock == Some(x)
    requires a.job == Sleep && a.phase == Freeing && a.base in s.reserved
        && s.reserved[a.base] == Range(a.size, Some(x))
    ensures Reachable(g, With(s.(reserved := s.reserved - {a.base}), x, a.(claim := Given, phase := Unreserved)))
  {
    var t, b := s.(reserved := s.reserved - {a.base}), a.(claim := Given, phase := Unreserved);
    DoesOwn(g, s, x, a, FreeForSleep(true), t, Move(b, Give(a.base), Keep, NoMap, false, false));
  }

  /** The address is reserved again. */
  lemma Restores(g: nat, s: Sys, x: nat, a: Alloc)
    requires g > 0 && Reachable(g, With(s, x, a)) && !s.err && s.lock == Some(x)
    requires a.job == Sleep && a.phase == Unreserved && FreeRange(s, a.base, a.size)
    ensures Reachable(g, With(s.(reserved := s.reserved[a.base := Range(a.size, Some(x))]), x,
                              a.(claim := Held, phase := Reporting)))
  {
    var t, b := s.(reserved := s.reserved[a.base := Range(a.size, Some(x))]),
        a.(claim := Held, phase := Replaced(a.base));
    DoesOwn(g, s, x, a, Rereserve(true, a.base), t, Move(b, SleepWake.Take(a.base), Keep, NoMap, false, false));
    Quiet(g, t, x, b, Settle(true), b.(phase := Reporting));
  }

  /** The report of a sleep, whatever the error code says. */
  lemma Reports(g: nat, s: Sys, x: nat, a: Alloc)
    requires g > 0 && Reachable(g, With(s, x, a)) && s.lock == Some(x) && a.job == Sleep && a.phase == Reporting
    ensures Reachable(g, With(s.(err := false, resets := if s.err then s.resets + 1 else s.resets, lock := None), x,
                              a.(job := Idle, phase := Asleep)))
  {
    var t := s.(err := false, resets := if s.err then s.resets + 1 else s.resets, lock := None);
    DoesOwn(g, s, x, a, ReportSleep, t, Move(a.(job := Idle, phase := Asleep), Stay, Keep, NoMap, false, s.err));
  }

  /** A whole sleep of a full allocation. */
  lemma Naps(g: nat, s: Sys, x: nat, a: Alloc, h: nat)
    requires g > 0 && Reachable(g, With(s, x, a)) && !s.err && s.lock == None && h in s.live
    requires a == Full(a.base, h, a.since) && a.base in s.maps && s.maps[a.base] == Binding(1, h, x, 0)
    requires a.base in s.reserved && s.reserved[a.base] == Range(1, Some(x))
    requires FreeRange(s.(reserved := s.reserved - {a.base}), a.base, 1)
    ensures Reachable(g, With(s.(live := s.live - {h}, maps := s.maps - {a.base}), x,
                              a.(own := map[], bound := map[], phase := Asleep)))
  {
    Empties(g, s, x, a, h);
    var t, b := s.(live := s.live - {h}, maps := s.maps - {a.base}, lock := Some(x)),
                a.(own := map[], bound := map[], job := Sleep, phase := Freeing);
    Vacates(g, t, x, b);
    Restores(g, t.(reserved := s.reserved - {a.base}), x, b.(claim := Given, phase := Unreserved));
    assert (s.reserved - {a.base})[a.base := Range(1, Some(x))] == s.reserved;
    Reports(g, t, x, b.(phase := Reporting));
  }

  /** The address went to somebody else: the new one is given back, and the sleep reports an error. */
  lemma Misses(g: nat, s: Sys, x: nat, a: Alloc, got: nat)
    requires g > 0 && Reachable(g, With(s, x, a)) && !s.err && s.lock == Some(x)
    requires a.job == Sleep && a.phase == Unreserved && got != a.base && FreeRange(s, got, a.size)
    ensures Reachable(g, With(s.(err := true), x, a.(claim := Given, phase := Reporting)))
  {
    var t, b := s.(reserved := s.reserved[got := Range(a.size, Some(x))]), a.(claim := Held, phase := Replaced(got));
    DoesOwn(g, s, x, a, Rereserve(true, got), t, Move(b, SleepWake.Take(got), Keep, NoMap, false, false));
    assert t.reserved - {got} == s.reserved;
    DoesOwn(g, t, x, b, Settle(true), s.(err := true),
            Move(a.(claim := Given, phase := Reporting), Give(got), Keep, NoMap, true, false));
  }

  // --- wake ----------------------------------------------------------------------------------------------------------

  predicate Napping(s: Sys, a: Alloc) {
    a.job == Idle && a.phase == Asleep && a.own == map[] && a.chunks == [Chunk(a.base, 1)] && s.lock == None
  }

  lemma Wakes(g: nat, s: Sys, x: nat, a: Alloc)
    requires g > 0 && Reachable(g, With(s, x, a)) && Napping(s, a)
    ensures Reachable(g, With(s.(lock := Some(x)), x,
                              a.(job := Wake, since := s.resets, done := {}, gone := {}, phase := Creating(0))))
  {
    var b := a.(job := Wake, since := s.resets, done := {}, gone := {}, phase := Creating(0));
    DoesOwn(g, s, x, a, BeginWake, s.(lock := Some(x)), Only(b, s.err));
  }

  // --- A lost address ------------------------------------------------------------------------------------------------

  const LOST: Alloc := One(0, map[], map[], {0, 1, 2}, Given, 0, Idle, Asleep)

  /** 0 is in the middle of its sleep; it has freed its address. */
  lemma Halfway(g: nat)
    requires g > 0
    ensures Reachable(g, With(Empty().(lock := Some(0)), 0, LOST.(job := Sleep, phase := Unreserved)))
  {
    var e, a := Empty(), Full(0, 0, 0);
    EmptyReachable(g);
    Mallocs(g, e, 0, 0, 0);
    var t := Used(e, 0, 0, 0);
    Empties(g, t, 0, a, 0);
    assert t.live - {0} == map[] && t.maps - {0} == map[];
    var u := t.(live := map[], maps := map[], lock := Some(0));
    Vacates(g, u, 0, a.(own := map[], bound := map[], job := Sleep, phase := Freeing));
    assert u.reserved - {0} == map[];
  }

  /** 0 is asleep without its address, which 1 has; the error code is clear. */
  function Stolen(): Sys {
    Used(Empty(), 1, 0, 1).(resets := 1, allocs := map[1 := Full(0, 1, 0)])
  }

  lemma StolenReachable(g: nat)
    requires g > 0
    ensures Reachable(g, With(Stolen(), 0, LOST))
  {
    Halfway(g);
    var a := LOST.(job := Sleep, phase := Unreserved);
    var s := With(Empty().(lock := Some(0)), 0, a);
    Mallocs(g, s, 1, 0, 1);
    var t := Stolen().(resets := 0, lock := Some(0));
    assert With(t, 0, a) == With(Used(s, 1, 0, 1), 1, Full(0, 1, 0)) by {
      assert map[1 := Full(0, 1, 0)][0 := a] == map[0 := a][1 := Full(0, 1, 0)];
    }
    Misses(g, t, 0, a, 1);
    Reports(g, t.(err := true), 0, a.(phase := Reporting));
  }

  /** Freeing 0 now takes 1's address away. */
  lemma StolenAddress(g: nat) returns (s: Sys, s': Sys)
    requires g > 0
    ensures Reachable(g, s) && Next(g, s, s', Step(0, FreeAddress(true)))
    ensures 1 in s.allocs && s.allocs[1].phase == Awake && HasAddress(s, 1) && 1 in s'.allocs && !HasAddress(s', 1)
  {
    StolenReachable(g);
    var a := LOST.(job := Free, phase := Freeing);
    DoesOwn(g, Stolen(), 0, LOST, BeginFree, Stolen(), Only(a, false));
    s := With(Stolen(), 0, a);
    assert s.allocs[0] == a;
    s' := Do(s, 0, Effect(g, false, 1, a, FreeAddress(true)));
  }

  /** 1 is asleep too, holding the address that 0 lost. */
  function BothAsleep(): Sys {
    Stolen().(live := map[], maps := map[],
              allocs := map[1 := Full(0, 1, 0).(own := map[], bound := map[], phase := Asleep)])
  }

  lemma BothAsleepReachable(g: nat)
    requires g > 0
    ensures Reachable(g, With(BothAsleep(), 0, LOST))
  {
    StolenReachable(g);
    var s, a := With(Stolen(), 0, LOST), Full(0, 1, 0);
    assert With(s, 1, a) == s;
    Naps(g, s, 1, a, 1);
    assert s.live - {1} == map[] && s.maps - {0} == map[];
    var b := a.(own := map[], bound := map[], phase := Asleep);
    assert map[1 := a][0 := LOST][1 := b] == map[1 := b][0 := LOST];
    assert With(s.(live := map[], maps := map[]), 1, b) == With(BothAsleep(), 0, LOST);
  }

  const REFILLED: Alloc := One(0, map[0 := 0], map[0 := 0], {0, 1, 2}, Given, 1, Wake, Returned(true))

  /** 0's wake is about to report. */
  function Refilled(): Sys {
    With(BothAsleep().(lock := Some(0), live := map[0 := Some(0)], maps := map[0 := Binding(1, 0, 0, 0)]), 0, REFILLED)
  }

  lemma RefilledReachable(g: nat)
    requires g > 0
    ensures Reachable(g, Refilled())
  {
    BothAsleepReachable(g);
    var t, a := BothAsleep().(lock := Some(0)),
        REFILLED.(own := map[], bound := map[], done := {}, phase := Creating(0));
    Wakes(g, BothAsleep(), 0, LOST);
    Fill(g, t, 0, a, 0);
    assert t.live[0 := Some(0)] == map[0 := Some(0)]
        && t.maps[0 := Binding(1, 0, 0, 0)] == map[0 := Binding(1, 0, 0, 0)];
  }

  /** Waking 0 reports success and leaves it awake, mapped at an address that belongs to 1. */
  lemma WokenWithoutAddress(g: nat) returns (s: Sys, s': Sys)
    requires g > 0
    ensures Reachable(g, s) && Next(g, s, s', Step(0, ReportWake)) && !s.err
    ensures 0 in s'.allocs && s'.allocs[0].phase == Awake && Backed(s', 0) && !HasAddress(s', 0)
    ensures 1 in s'.allocs && s'.allocs[1].phase == Asleep && HasAddress(s', 1)
        && s'.allocs[1].base == s'.allocs[0].base
  {
    RefilledReachable(g);
    s := Refilled();
    assert s.allocs[0] == REFILLED;
    s' := Do(s, 0, Effect(g, false, 1, REFILLED, ReportWake));
    assert HasChunk(s', 0, 0);
  }

  // --- Hidden errors -------------------------------------------------------------------------------------------------

  /** A call fails and sets the error code. */
  lemma Fails(g: nat, s: Sys, x: nat, a: Alloc, op: Op, b: Alloc)
    requires g > 0 && Reachable(g, With(s, x, a)) && Allowed(g, a, op)
    requires Effect(g, s.err, s.resets, a, op) == Only(b, true)
    requires a.job != Idle && (Locks(b.job) <==> s.lock == Some(x))
    ensures Reachable(g, With(s.(err := true), x, b))
  {
    DoesOwn(g, s, x, a, op, s.(err := true), Only(b, true));
  }

  /** create_and_map gives up after its first call failed. */
  lemma CreatesNothing(g: nat, s: Sys, x: nat, a: Alloc)
    requires g > 0 && Reachable(g, With(s, x, a)) && Ready(s, x, a) && a.own == map[] && a.phase == Creating(0)
    ensures Reachable(g, With(s.(err := true), x, a.(phase := Returned(false))))
  {
    var t, b, c := s.(err := true), a.(phase := Created(0, None)), a.(phase := Undoing);
    Fails(g, s, x, a, Create(false, 0), b);
    assert MoveHandle(t, x, Leak({})) == t.live;
    DoesOwn(g, t, x, b, SeeCreate, t, Move(c, Stay, Leak({}), NoMap, true, false));
    Quiet(g, t, x, c, UndoDone, a.(phase := Returned(false)));
  }

  /** A wake that fails reports and clears whatever error there is. */
  lemma WakesInVain(g: nat, s: Sys, x: nat, a: Alloc)
    requires g > 0 && Reachable(g, With(s, x, a)) && Napping(s, a)
    ensures Reachable(g, With(s.(err := false, resets := s.resets + 1), x,
                              a.(since := s.resets, done := {}, gone := {})))
  {
    WakesEmpty(g, s, x, a);
    ReportsFailure(g, s.(err := true, lock := Some(x)), x,
                   a.(job := Wake, since := s.resets, done := {}, gone := {}, phase := Returned(false)));
  }

  lemma WakesEmpty(g: nat, s: Sys, x: nat, a: Alloc)
    requires g > 0 && Reachable(g, With(s, x, a)) && Napping(s, a)
    ensures Reachable(g, With(s.(err := true, lock := Some(x)), x,
                              a.(job := Wake, since := s.resets, done := {}, gone := {}, phase := Returned(false))))
  {
    Wakes(g, s, x, a);
    CreatesNothing(g, s.(lock := Some(x)), x,
                   a.(job := Wake, since := s.resets, done := {}, gone := {}, phase := Creating(0)));
  }

  lemma ReportsFailure(g: nat, s: Sys, x: nat, a: Alloc)
    requires g > 0 && Reachable(g, With(s, x, a)) && s.err && s.lock == Some(x)
    requires a.job == Wake && a.phase == Returned(false) && a.own == map[]
    ensures Reachable(g, With(s.(err := false, resets := s.resets + 1, lock := None), x,
                              a.(job := Idle, phase := Asleep)))
  {
    assert a.own.Values == {} && MoveHandle(s, x, Leak({})) == s.live;
    var t, b := s.(err := false, resets := s.resets + 1, lock := None), a.(job := Idle, phase := Asleep);
    DoesOwn(g, s, x, a, ReportWake, t, Move(b, Stay, Leak({}), NoMap, false, true));
  }

  /** 0 is in state a, 1 in state b. */
  function Pair(s: Sys, a: Alloc, b: Alloc): Sys {
    s.(allocs := map[0 := a, 1 := b])
  }

  lemma PairIs(s: Sys, a: Alloc, b: Alloc)
    ensures Pair(s, a, b) == With(s.(allocs := map[0 := a]), 1, b) == With(s.(allocs := map[1 := b]), 0, a)
  {
    assert map[0 := a, 1 := b] == map[1 := b][0 := a];
  }

  /** 0's wake in vain, beside 1. */
  lemma Clearing(g: nat, s: Sys, a: Alloc, b: Alloc)
    requires g > 0 && Reachable(g, Pair(s, a, b)) && Napping(s, a)
    ensures Reachable(g, Pair(s.(err := false, resets := s.resets + 1), a.(since := s.resets, done := {}, gone := {}),
                              b))
  {
    PairIs(s, a, b);
    WakesInVain(g, s.(allocs := map[1 := b]), 0, a);
    PairIs(s.(err := false, resets := s.resets + 1), a.(since := s.resets, done := {}, gone := {}), b);
  }

  const NAP: Alloc := LOST.(claim := Held)

  /** The driver while 0 is asleep at address 0 and 1 is at address g. */
  function Beside(g: nat, live: map<nat, Option<nat>>, resets: nat): Sys {
    Empty().(reserved := map[0 := Range(1, Some(0)), g := Range(1, Some(1))], live := live, resets := resets)
  }

  /** 1's malloc is about to create its only chunk. */
  lemma Joins(g: nat)
    requires g > 0
    ensures Reachable(g, Pair(Beside(g, map[], 0), NAP, One(g, map[], map[], {}, Held, 0, Malloc, Creating(0))))
  {
    var e, a := Empty(), Full(0, 0, 0);
    EmptyReachable(g);
    Mallocs(g, e, 0, 0, 0);
    var t := Used(e, 0, 0, 0);
    Naps(g, t, 0, a, 0);
    assert t.live - {0} == map[] && t.maps - {0} == map[];
    var u := With(t.(live := map[], maps := map[]), 0, NAP);
    assert u.allocs == map[0 := NAP];
    Begin(g, u, 1, g);
    assert map[0 := Range(1, Some(0))][g := Range(1, Some(1))] == map[0 := Range(1, Some(0)), g := Range(1, Some(1))];
    PairIs(Beside(g, map[], 0), NAP, One(g, map[], map[], {}, Held, 0, Malloc, Creating(0)));
  }

  /** 1's create call fails; 0's report hides it, and malloc returns an address with no memory. */
  lemma MaskedError(g: nat) returns (s: Sys, s': Sys)
    requires g > 0
    ensures Reachable(g, s) && Next(g, s, s', Step(1, Return)) && !s.err
    ensures 1 in s'.allocs && s'.allocs[1].phase == Awake && |s'.allocs[1].chunks| == 1 && s'.allocs[1].own == map[]
  {
    Joins(g);
    var a := One(g, map[], map[], {}, Held, 0, Malloc, Creating(0));
    var t, b := Beside(g, map[], 0), a.(phase := Returned(false));
    PairIs(t, NAP, a);
    CreatesNothing(g, t.(allocs := map[0 := NAP]), 1, a);
    PairIs(t.(err := true), NAP, b);
    Clearing(g, t.(err := true), NAP, b);
    s := Pair(Beside(g, map[], 1), NAP.(done := {}), b);
    assert s.allocs[1] == b;
    s' := Do(s, 1, Effect(g, false, 1, b, Return));
  }

  /** 1's next map, access or memset call fails, and 0's report hides it. */
  lemma MapUnseen(g: nat, s: Sys, a: Alloc, b: Alloc, k: nat)
    requires g > 0 && Reachable(g, Pair(s, a, b)) && !s.err && Napping(s, a)
    requires b.job == Malloc && b.phase == Mapping(k) && k <= 2 && |b.chunks| == 1
    ensures Reachable(g, Pair(s.(resets := s.resets + 1), a.(since := s.resets, done := {}, gone := {}),
                              b.(phase := if k == 2 then Returned(true) else Mapping(k + 1))))
  {
    var c, d := b.(phase := MapCalled(k)), b.(phase := if k == 2 then Returned(true) else Mapping(k + 1));
    PairIs(s, a, b);
    Fails(g, s.(allocs := map[0 := a]), 1, b, Map(false), c);
    PairIs(s.(err := true), a, c);
    Clearing(g, s.(err := true), a, c);
    var t, a' := s.(resets := s.resets + 1), a.(since := s.resets, done := {}, gone := {});
    PairIs(t, a', c);
    Quiet(g, t.(allocs := map[0 := a']), 1, c, SeeMap, d);
    PairIs(t, a', d);
  }

  const UNMAPPED: map<nat, Option<nat>> := map[0 := Some(1)]

  /** 1 has created its handle. */
  lemma CreatesOnly(g: nat)
    requires g > 0
    ensures Reachable(g, Pair(Beside(g, UNMAPPED, 0), NAP, One(g, map[0 := 0], map[], {}, Held, 0, Malloc, Mapping(0))))
  {
    Joins(g);
    var a := One(g, map[], map[], {}, Held, 0, Malloc, Creating(0));
    var t := Beside(g, map[], 0);
    PairIs(t, NAP, a);
    CreateAndSee(g, t.(allocs := map[0 := NAP]), 1, a, 0);
    assert t.live[0 := Some(1)] == UNMAPPED;
    PairIs(Beside(g, UNMAPPED, 0), NAP, a.(own := map[0 := 0], phase := Mapping(0)));
  }

  lemma MapsNothing(g: nat)
    requires g > 0
    ensures Reachable(g, Pair(Beside(g, UNMAPPED, 3), NAP.(since := 2, done := {}),
                              One(g, map[0 := 0], map[], {}, Held, 0, Malloc, Returned(true))))
  {
    CreatesOnly(g);
    var b, nap := One(g, map[0 := 0], map[], {}, Held, 0, Malloc, Mapping(0)), NAP.(done := {});
    MapUnseen(g, Beside(g, UNMAPPED, 0), NAP, b, 0);
    MapUnseen(g, Beside(g, UNMAPPED, 1), nap, b.(phase := Mapping(1)), 1);
    MapUnseen(g, Beside(g, UNMAPPED, 2), nap.(since := 1), b.(phase := Mapping(2)), 2);
  }

  /** 1's map call fails, and so do the access and memset calls on what is not mapped; 0's reports hide all three
      errors, and malloc returns an address with a handle that is not mapped. */
  lemma MaskedMap(g: nat) returns (s: Sys, s': Sys)
    requires g > 0
    ensures Reachable(g, s) && Next(g, s, s', Step(1, Return)) && !s.err
    ensures 1 in s'.allocs && s'.allocs[1].phase == Awake && Made(s'.allocs[1], |s'.allocs[1].chunks|)
    ensures s'.allocs[1].chunks != [] && s'.allocs[1].done == {} && s'.maps == map[]
  {
    MapsNothing(g);
    var b := One(g, map[0 := 0], map[], {}, Held, 0, Malloc, Returned(true));
    s := Pair(Beside(g, UNMAPPED, 3), NAP.(since := 2, done := {}), b);
    assert s.allocs[1] == b;
    s' := Do(s, 1, Effect(g, false, 3, b, Return));
  }

  // --- Unmapped by another allocation --------------------------------------------------------------------------------

  const HOLLOW: Alloc := One(0, map[], map[], {}, Held, 0, Idle, Awake)
  const ENDED: Alloc := LOST.(phase := Gone)

  /** While 0 sleeps, 1 reserves its address and creates nothing; 0's report hides that. */
  lemma HollowReachable(g: nat)
    requires g > 0
    ensures Reachable(g, Pair(Empty().(reserved := map[0 := Range(1, Some(1))], resets := 1), LOST, HOLLOW))
  {
    Halfway(g);
    var a, b := LOST.(job := Sleep, phase := Unreserved), HOLLOW.(job := Malloc, phase := Creating(0));
    var t := Empty().(lock := Some(0), reserved := map[0 := Range(1, Some(1))]);
    Begin(g, With(Empty().(lock := Some(0)), 0, a), 1, 0);
    PairIs(t, a, b);
    CreatesNothing(g, t.(allocs := map[0 := a]), 1, b);
    var u, c := t.(err := true), b.(phase := Returned(false));
    PairIs(u, a, c);
    Quiet(g, u.(allocs := map[1 := c]), 0, a, Rereserve(false, 0), a.(phase := Reporting));
    Reports(g, u.(allocs := map[1 := c]), 0, a.(phase := Reporting));
    var v := t.(resets := 1, lock := None);
    PairIs(v, LOST, c);
    Quiet(g, v.(allocs := map[0 := LOST]), 1, c, Return, HOLLOW);
    PairIs(v, LOST, HOLLOW);
  }

  /** 0 is freed, and 1's reservation with it. */
  lemma RobbedReachable(g: nat)
    requires g > 0
    ensures Reachable(g, Pair(Empty().(resets := 1), ENDED, HOLLOW.(claim := Robbed)))
  {
    HollowReachable(g);
    var t := Empty().(reserved := map[0 := Range(1, Some(1))], resets := 1);
    PairIs(t, LOST, HOLLOW);
    var a := LOST.(job := Free, phase := Freeing);
    var u := t.(allocs := map[1 := HOLLOW]);
    DoesOwn(g, u, 0, LOST, BeginFree, u, Only(a, false));
    var s' := Pair(Empty().(resets := 1), ENDED, HOLLOW.(claim := Robbed));
    var m := Move(ENDED, Give(0), Keep, NoMap, false, false);
    assert Do(With(u, 0, a), 0, m) == s' by {
      var r := Strip(With(u, 0, a), 0, 0);
      assert r.allocs[0 := ENDED] == s'.allocs;
      assert r.reserved - {0} == map[];
    }
    Does(g, u, 0, a, FreeAddress(true), s', m);
  }

  /** 2 builds a full allocation at the address, 1 is freed before 2's malloc returns. */
  function Behind(maps: map<nat, Binding>, a: Alloc, b: Alloc): Sys {
    Used(Empty(), 2, 0, 0).(maps := maps, resets := 1, allocs := map[0 := ENDED, 1 := a, 2 := b])
  }

  const BUILT: map<nat, Binding> := map[0 := Binding(1, 0, 2, 0)]
  const NEWCOMER: Alloc := Full(0, 0, 1).(job := Malloc, phase := Returned(true))

  lemma BehindIs(maps: map<nat, Binding>, a: Alloc, b: Alloc, c: Alloc)
    ensures With(Behind(maps, a, b), 1, c) == Behind(maps, c, b)
  {
    assert map[0 := ENDED, 1 := a, 2 := b][1 := c] == map[0 := ENDED, 1 := c, 2 := b];
  }

  lemma NewcomerReachable(g: nat)
    requires g > 0
    ensures Reachable(g, Behind(BUILT, HOLLOW.(claim := Robbed), NEWCOMER))
  {
    RobbedReachable(g);
    var a := HOLLOW.(claim := Robbed);
    var s := Pair(Empty().(resets := 1), ENDED, a);
    Builds(g, s, 2, 0, 0);
    assert map[0 := ENDED, 1 := a][2 := NEWCOMER] == map[0 := ENDED, 1 := a, 2 := NEWCOMER];
  }

  lemma BehindReachable(g: nat)
    requires g > 0
    ensures Reachable(g, Behind(BUILT, HOLLOW.(claim := Robbed, job := Free, phase := Unmapping(0, {})), NEWCOMER))
  {
    NewcomerReachable(g);
    var a, c := HOLLOW.(claim := Robbed), HOLLOW.(claim := Robbed, job := Free, phase := Unmapping(0, {}));
    var t := Behind(BUILT, a, NEWCOMER);
    BehindIs(BUILT, a, NEWCOMER, a);
    DoesOwn(g, t, 1, a, BeginFree, t, Only(c, false));
    BehindIs(BUILT, a, NEWCOMER, c);
  }

  /** 1's unmap call. */
  lemma Uncovers(g: nat)
    requires g > 0
    ensures Reachable(g, Behind(map[], HOLLOW.(claim := Robbed, job := Free, phase := Releasing({}, false)),
                                NEWCOMER.(bound := map[], gone := {0})))
  {
    BehindReachable(g);
    var a := HOLLOW.(claim := Robbed, job := Free, phase := Unmapping(0, {}));
    var c, d := a.(phase := Releasing({}, false)), NEWCOMER.(bound := map[], gone := {0});
    var t, m := Behind(BUILT, a, NEWCOMER), Move(c, Stay, Keep, Unbind(0), false, false);
    BehindIs(BUILT, a, NEWCOMER, a);
    assert a.bound - {0} == map[];
    assert Without(NEWCOMER, 0) == d by {
      assert NEWCOMER.bound - {0} == map[] && NEWCOMER.gone + {0} == {0};
    }
    assert Do(t, 1, m) == Behind(map[], c, d) by {
      var r := Evict(t, 1, 0);
      assert r.maps == map[] && r.allocs[1 := c] == map[0 := ENDED, 1 := c, 2 := d];
    }
    Does(g, t, 1, a, Unmap(true), Behind(map[], c, d), m);
  }

  /** 1's free unmaps what 2 has mapped at the address. 2's malloc returns with its address, no report having come in
      between and each of its calls having succeeded, and has no memory there. */
  lemma UnmappedBehind(g: nat) returns (s: Sys, s': Sys)
    requires g > 0
    ensures Reachable(g, s) && Next(g, s, s', Step(2, Return)) && !s.err && 2 in s.allocs
        && s.allocs[2].since == s.resets
    ensures 2 in s'.allocs && s'.allocs[2].phase == Awake && HasAddress(s', 2) && AllCalled(s'.allocs[2])
    ensures s'.maps == map[] && !Backed(s', 2)
  {
    Uncovers(g);
    var d := NEWCOMER.(bound := map[], gone := {0});
    s := Behind(map[], HOLLOW.(claim := Robbed, job := Free, phase := Releasing({}, false)), d);
    assert s.allocs[2] == d;
    s' := Do(s, 2, Effect(g, false, 1, d, Return));
    assert !HasChunk(s', 2, 0);
  }

  // --- A mapping left behind -----------------------------------------------------------------------------------------

  /** The map call succeeds and another thread's error is taken for its failure: create_and_map unmaps the chunks before
      it, and malloc gives the address and the handle back with the chunk still mapped. */
  lemma LeftMapped(g: nat) returns (s: Sys)
    requires g > 0
    ensures Reachable(g, s) && 0 in s.allocs && s.allocs[0].phase == Gone
    ensures s.reserved == map[] && s.live == map[] && Holds(s, 0, 0)
  {
    var e, a := Empty(), One(0, map[], map[], {}, Held, 0, Malloc, Creating(0));
    EmptyReachable(g);
    Begin(g, e, 0, 0);
    var t := e.(reserved := map[0 := Range(1, Some(0))]);
    CreateAndSee(g, t, 0, a, 0);
    var u := t.(live := map[0 := Some(0)]);
    MapChunk(g, u, 0, a.(own := map[0 := 0], phase := Mapping(0)), 0);
    var v, b := u.(maps := map[0 := Binding(1, 0, 0, 0)]),
        a.(own := map[0 := 0], bound := map[0 := 0], done := {0}, phase := MapCalled(0));
    Then(g, With(v, 0, b), With(v.(err := true), 0, b), Fault);
    Undoes(g, v.(err := true), b);
    s := GivesUp(g, v.(err := true, live := map[]), b.(own := map[], phase := Returned(false)));
  }

  /** What it undoes: the handle, and no mapping. */
  lemma Undoes(g: nat, s: Sys, a: Alloc)
    requires g > 0 && Reachable(g, With(s, 0, a)) && s == Used(Empty(), 0, 0, 0).(err := true)
    requires a == Full(0, 0, 0).(done := {0}, job := Malloc, phase := MapCalled(0))
    ensures Reachable(g, With(s.(live := map[]), 0, a.(own := map[], phase := Returned(false))))
  {
    var b := a.(phase := Undoing);
    Quiet(g, s, 0, a, SeeMap, b);
    var t, c := s.(live := map[]), b.(own := map[]);
    assert b.own - {0} == map[] && s.live - {0} == map[];
    DoesOwn(g, s, 0, b, Undo(0, true), t, Move(c, Stay, Destroy(0), NoMap, true, false));
    Quiet(g, t, 0, c, UndoDone, c.(phase := Returned(false)));
  }

  lemma GivesUp(g: nat, s: Sys, a: Alloc) returns (s': Sys)
    requires g > 0 && Reachable(g, With(s, 0, a)) && s == Used(Empty(), 0, 0, 0).(err := true, live := map[])
    requires a == Full(0, 0, 0).(own := map[], done := {0}, job := Malloc, phase := Returned(false))
    ensures Reachable(g, s') && 0 in s'.allocs && s'.allocs[0].phase == Gone
    ensures s'.reserved == map[] && s'.live == map[] && Holds(s', 0, 0)
  {
    var d := a.(phase := Discarding);
    assert a.own.Values == {} && MoveHandle(s, 0, Leak({})) == s.live;
    DoesOwn(g, s, 0, a, Return, s, Move(d, Stay, Leak({}), NoMap, true, false));
    assert s.reserved - {0} == map[];
    DoesOwn(g, s, 0, d, Discard(true), s.(reserved := map[]), Move(Ended(d), Give(0), Keep, NoMap, true, false));
    s' := With(s.(reserved := map[]), 0, Ended(d));
  }
}
