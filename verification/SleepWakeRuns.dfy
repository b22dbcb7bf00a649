/** What the lifecycle guarantees over whole runs. */
module SleepWakeRuns {
  import opened Wrappers
  import opened SleepWake

  ghost predicate Start(s: Sys) {
    s.reserved == map[] && s.live == map[] && s.maps == map[] && s.allocs == map[] && s.lock == None
  }

  ghost predicate Steps(g: nat, ss: seq<Sys>, acts: seq<Action>)
    requires g > 0
  {
    |ss| == |acts| + 1 && forall i :: 0 <= i < |acts| ==> Next(g, ss[i], ss[i + 1], acts[i])
  }

  /** Any interleaving of mallocs, sleeps, wakes and frees, from the start. */
  ghost predicate Run(g: nat, ss: seq<Sys>, acts: seq<Action>)
    requires g > 0
  {
    Steps(g, ss, acts) && Start(ss[0])
  }

  lemma {:induction false} RunInv(g: nat, ss: seq<Sys>, acts: seq<Action>, i: nat)
    requires g > 0 && Run(g, ss, acts) && i <= |acts|
    ensures Inv(g, ss[i])
  {
    if i > 0 {
      RunInv(g, ss, acts, i - 1);
      NextInv(g, ss[i - 1], ss[i], acts[i - 1]);
    }
  }

  // --- Reservations --------------------------------------------------------------------------------------------------

  predicate Apart(b: nat, n: nat, c: nat, m: nat) {
    b + n <= c || c + m <= b
  }

  predicate HasAddress(s: Sys, x: nat)
    requires x in s.allocs
  {
    s.allocs[x].base in s.reserved && s.reserved[s.allocs[x].base] == Range(s.allocs[x].size, Some(x))
  }

  predicate AtRest(a: Alloc) {
    a.phase == Awake || a.phase == Asleep
  }

  lemma ClaimIs(s: Sys, x: nat)
    requires PlacesOk(s) && x in s.allocs && !s.allocs[x].phase.Replaced?
    ensures HasAddress(s, x) <==> s.allocs[x].claim == Held
  {
    if HasAddress(s, x) {
      assert Place(s.allocs[x]) == Some(s.allocs[x].base);
    }
  }

  /** At every point of every run live reservations are disjoint, and so are the ranges of any two allocations at rest
      that have their address. */
  lemma ReservationsDisjoint(g: nat, ss: seq<Sys>, acts: seq<Action>, i: nat)
    requires g > 0 && Run(g, ss, acts) && i <= |acts|
    ensures forall b, c :: b in ss[i].reserved && c in ss[i].reserved && b != c ==>
              Apart(b, ss[i].reserved[b].size, c, ss[i].reserved[c].size)
    ensures forall x, y ::
              x in ss[i].allocs && y in ss[i].allocs && x != y && HasAddress(ss[i], x) && HasAddress(ss[i], y) ==>
              Apart(ss[i].allocs[x].base, ss[i].allocs[x].size, ss[i].allocs[y].base, ss[i].allocs[y].size)
  {
    RunInv(g, ss, acts, i);
  }

  /** The driver frees, for another allocation, a range that y holds. */
  predicate Harms(g: nat, s: Sys, act: Action, y: nat)
    requires g > 0
  {
    && act.Step? && act.x != y && act.x in s.allocs && Allowed(g, s.allocs[act.x], act.op)
    && var m := Effect(g, s.err, s.resets, s.allocs[act.x], act.op).place;
    m.Give? && m.b in s.reserved && s.reserved[m.b].holder == Some(y)
  }

  /** Only an allocation without its address can do such harm. */
  lemma HarmNeedsLoss(g: nat, s: Sys, act: Action, y: nat)
    requires g > 0 && Inv(g, s) && Harms(g, s, act, y)
    ensures s.allocs[act.x].claim != Held
  {
    var a := s.allocs[act.x];
    assert AllocOk(g, s, act.x);
    EffectPlace(g, s.err, s.resets, a, act.op);
  }

  lemma EffectShape(g: nat, err: bool, resets: nat, a: Alloc, op: Op)
    requires g > 0 && Allowed(g, a, op)
    ensures var a' := Effect(g, err, resets, a, op).a; a'.base == a.base && a'.size == a.size && a'.chunks == a.chunks
  {
  }

  /** The address at which the step unmaps something. */
  function UnmapsAt(s: Sys, act: Action): Option<nat> {
    if act.Step? && act.op == Unmap(true) && act.x in s.allocs then
      var a := s.allocs[act.x];
      if (a.phase.Unmapping? || a.phase.Backing?) && UnmapIndex(a) < |a.chunks| then Some(a.chunks[UnmapIndex(a)].addr)
          else None
    else None
  }

  /** The driver unmaps, for another allocation, what x's chunk i had mapped. */
  predicate Takes(s: Sys, act: Action, x: nat, i: nat) {
    && act.Step? && act.x != x && UnmapsAt(s, act).Some? && UnmapsAt(s, act).value in s.maps
    && s.maps[UnmapsAt(s, act).value].x == x && s.maps[UnmapsAt(s, act).value].i == i
  }

  /** What a step of another allocation leaves of x: everything but the address, or everything but a mapping, or all. */
  function Seen(g: nat, s: Sys, act: Action, x: nat): Alloc
    requires g > 0 && x in s.allocs
  {
    if Harms(g, s, act, x) then s.allocs[x].(claim := Robbed)
    else
      var b := UnmapsAt(s, act);
      if b.Some? && b.value in s.maps && s.maps[b.value].x == x then Without(s.allocs[x], s.maps[b.value].i)
          else s.allocs[x]
  }

  /** What a move of y takes from x. */
  lemma ClearedOther(s: Sys, y: nat, m: Move, x: nat)
    requires x in s.allocs && x != y && (m.place.Stay? || m.mapping == NoMap)
    ensures x in Do(s, y, m).allocs
    ensures Do(s, y, m).allocs[x] ==
      if m.place.Give? && m.place.b in s.reserved && s.reserved[m.place.b].holder == Some(x)
          then s.allocs[x].(claim := Robbed)
      else if m.mapping.Unbind? && m.mapping.i < |m.a.chunks| && m.a.chunks[m.mapping.i].addr in s.maps
              && s.maps[m.a.chunks[m.mapping.i].addr].x == x
      then Without(s.allocs[x], s.maps[m.a.chunks[m.mapping.i].addr].i)
      else s.allocs[x]
  {
    if !m.place.Give? && m.mapping.Unbind? && m.mapping.i < |m.a.chunks| {
      EvictShape(s, y, m.a.chunks[m.mapping.i].addr, x);
    }
  }

  lemma EffectUnbinds(g: nat, err: bool, resets: nat, a: Alloc, op: Op)
    requires g > 0 && Allowed(g, a, op)
    ensures var m := Effect(g, err, resets, a, op);
            (m.mapping.Unbind? <==> op == Unmap(true)) && (m.mapping.Unbind? ==> m.mapping.i == UnmapIndex(a))
  {
  }

  lemma Bystander(g: nat, s: Sys, s': Sys, act: Action, x: nat)
    requires g > 0 && Next(g, s, s', act) && x in s.allocs && !(act.Step? && act.x == x)
    ensures x in s'.allocs && s'.allocs[x] == Seen(g, s, act, x)
  {
    if act.Step? {
      var m := Effect(g, s.err, s.resets, s.allocs[act.x], act.op);
      EffectAims(g, s.err, s.resets, s.allocs[act.x], act.op);
      EffectUnbinds(g, s.err, s.resets, s.allocs[act.x], act.op);
      ClearedOther(s, act.x, m, x);
    }
  }

  lemma SameAddress(g: nat, s: Sys, s': Sys, act: Action, x: nat)
    requires g > 0 && Next(g, s, s', act) && x in s.allocs
    ensures x in s'.allocs && s'.allocs[x].base == s.allocs[x].base && s'.allocs[x].size == s.allocs[x].size
    ensures s'.allocs[x].chunks == s.allocs[x].chunks
  {
    if act.Step? && act.x == x {
      EffectShape(g, s.err, s.resets, s.allocs[x], act.op);
    } else {
      Bystander(g, s, s', act, x);
    }
  }

  lemma {:induction false} AddressFixed(g: nat, ss: seq<Sys>, acts: seq<Action>, i: nat, j: nat, x: nat)
    requires g > 0 && Steps(g, ss, acts) && i <= j <= |acts| && x in ss[i].allocs
    ensures x in ss[j].allocs
    ensures ss[j].allocs[x].base == ss[i].allocs[x].base && ss[j].allocs[x].size == ss[i].allocs[x].size
    ensures ss[j].allocs[x].chunks == ss[i].allocs[x].chunks
    decreases j - i
  {
    if i < j {
      AddressFixed(g, ss, acts, i, j - 1, x);
      SameAddress(g, ss[j - 1], ss[j], acts[j - 1], x);
    }
  }

  // --- How an address can be missing ---------------------------------------------------------------------------------

  /** x's sleep gets a reservation again. */
  predicate Rereserves(act: Action, x: nat) {
    act.Step? && act.x == x && act.op.Rereserve? && act.op.ok
  }

  ghost predicate NoneSince(acts: seq<Action>, i: nat, j: nat, x: nat)
    requires j <= |acts|
  {
    forall k :: i <= k < j ==> !Rereserves(acts[k], x)
  }

  /** A sleep of x has reported an error, and none has reserved again since. */
  ghost predicate SleepFailedSince(ss: seq<Sys>, acts: seq<Action>, j: nat, x: nat)
    requires j <= |acts| < |ss|
  {
    exists i :: 0 <= i < j && acts[i] == Step(x, ReportSleep) && ss[i].err && NoneSince(acts, i + 1, j, x)
  }

  /** The address was taken away, and no sleep has reserved again since. */
  ghost predicate HarmedSince(g: nat, ss: seq<Sys>, acts: seq<Action>, j: nat, x: nat)
    requires g > 0 && j <= |acts| < |ss|
  {
    exists i :: 0 <= i < j && Harms(g, ss[i], acts[i], x) && NoneSince(acts, i + 1, j, x)
  }

  /** Between sleep's own free and its report the address may be away. */
  predicate MidSleep(a: Alloc) {
    a.job == Sleep && (a.phase == Unreserved || a.phase == Reporting)
  }

  lemma ClaimEffect(g: nat, err: bool, resets: nat, a: Alloc, op: Op)
    requires g > 0 && Allowed(g, a, op) && PhaseOk(g, err, a.since == resets, a)
    ensures var a' := Effect(g, err, resets, a, op).a;
            && (a'.claim == Robbed ==> a.claim == Robbed && !op.Rereserve?)
            && (a'.claim == Given && a'.phase != Gone && !MidSleep(a') ==>
                  || (a.claim == Given && a.phase != Gone && !MidSleep(a) && !op.Rereserve?)
                  || (op == ReportSleep && err))
  {
  }

  lemma FailedLonger(ss: seq<Sys>, acts: seq<Action>, j: nat, x: nat)
    requires 0 < j <= |acts| < |ss| && SleepFailedSince(ss, acts, j - 1, x) && !Rereserves(acts[j - 1], x)
    ensures SleepFailedSince(ss, acts, j, x)
  {
    var i :| 0 <= i < j - 1 && acts[i] == Step(x, ReportSleep) && ss[i].err && NoneSince(acts, i + 1, j - 1, x);
    assert NoneSince(acts, i + 1, j, x);
  }

  lemma HarmedLonger(g: nat, ss: seq<Sys>, acts: seq<Action>, j: nat, x: nat)
    requires g > 0 && 0 < j <= |acts| < |ss| && HarmedSince(g, ss, acts, j - 1, x) && !Rereserves(acts[j - 1], x)
    ensures HarmedSince(g, ss, acts, j, x)
  {
    var i :| 0 <= i < j - 1 && Harms(g, ss[i], acts[i], x) && NoneSince(acts, i + 1, j - 1, x);
    assert NoneSince(acts, i + 1, j, x);
  }

  lemma JustNow(g: nat, ss: seq<Sys>, acts: seq<Action>, j: nat, x: nat)
    requires g > 0 && 0 < j <= |acts| < |ss|
    ensures acts[j - 1] == Step(x, ReportSleep) && ss[j - 1].err ==> SleepFailedSince(ss, acts, j, x)
    ensures Harms(g, ss[j - 1], acts[j - 1], x) ==> HarmedSince(g, ss, acts, j, x)
  {
    assert NoneSince(acts, j, j, x);
  }

  /** Without its address an allocation was harmed, or a sleep of it has reported an error, and none reserved again
      since. */
  lemma {:induction false} ClaimStory(g: nat, ss: seq<Sys>, acts: seq<Action>, j: nat, x: nat)
    requires g > 0 && Run(g, ss, acts) && j <= |acts| && x in ss[j].allocs
    ensures ss[j].allocs[x].claim == Robbed ==> HarmedSince(g, ss, acts, j, x)
    ensures ss[j].allocs[x].claim == Given && ss[j].allocs[x].phase != Gone && !MidSleep(ss[j].allocs[x]) ==>
              SleepFailedSince(ss, acts, j, x)
  {
    if j > 0 {
      assert Next(g, ss[j - 1], ss[j], acts[j - 1]);
      if x in ss[j - 1].allocs {
        ClaimStory(g, ss, acts, j - 1, x);
        RunInv(g, ss, acts, j - 1);
        JustNow(g, ss, acts, j, x);
        StoryStep(g, ss, acts, j, x);
      }
    }
  }

  lemma StoryStep(g: nat, ss: seq<Sys>, acts: seq<Action>, j: nat, x: nat)
    requires g > 0 && 0 < j <= |acts| < |ss| && x in ss[j - 1].allocs && x in ss[j].allocs
    requires Next(g, ss[j - 1], ss[j], acts[j - 1]) && AllocOk(g, ss[j - 1], x)
    requires ss[j - 1].allocs[x].claim == Robbed ==> HarmedSince(g, ss, acts, j - 1, x)
    requires
      ss[j - 1].allocs[x].claim == Given && ss[j - 1].allocs[x].phase != Gone && !MidSleep(ss[j - 1].allocs[x]) ==>
        SleepFailedSince(ss, acts, j - 1, x)
    requires acts[j - 1] == Step(x, ReportSleep) && ss[j - 1].err ==> SleepFailedSince(ss, acts, j, x)
    requires Harms(g, ss[j - 1], acts[j - 1], x) ==> HarmedSince(g, ss, acts, j, x)
    ensures ss[j].allocs[x].claim == Robbed ==> HarmedSince(g, ss, acts, j, x)
    ensures ss[j].allocs[x].claim == Given && ss[j].allocs[x].phase != Gone && !MidSleep(ss[j].allocs[x]) ==>
              SleepFailedSince(ss, acts, j, x)
  {
    var s, act := ss[j - 1], acts[j - 1];
    if act.Step? && act.x == x {
      ClaimEffect(g, s.err, s.resets, s.allocs[x], act.op);
    } else {
      Bystander(g, s, ss[j], act, x);
    }
    if !Rereserves(act, x) {
      if SleepFailedSince(ss, acts, j - 1, x) {
        FailedLonger(ss, acts, j, x);
      }
      if HarmedSince(g, ss, acts, j - 1, x) {
        HarmedLonger(g, ss, acts, j, x);
      }
    }
  }

  /** An allocation's address never changes. Whenever it is awake or asleep it holds the reservation of exactly that
      range, unless a sleep of it has reported an error or another allocation's free took the range away, and no sleep
      of it has reserved again since. */
  lemma AddressKept(g: nat, ss: seq<Sys>, acts: seq<Action>, i: nat, j: nat, x: nat)
    requires g > 0 && Run(g, ss, acts) && i <= j <= |acts| && x in ss[i].allocs
    ensures x in ss[j].allocs
    ensures ss[j].allocs[x].base == ss[i].allocs[x].base && ss[j].allocs[x].size == ss[i].allocs[x].size
    ensures AtRest(ss[j].allocs[x]) ==>
              HasAddress(ss[j], x) || SleepFailedSince(ss, acts, j, x) || HarmedSince(g, ss, acts, j, x)
  {
    AddressFixed(g, ss, acts, i, j, x);
    RunInv(g, ss, acts, j);
    if AtRest(ss[j].allocs[x]) {
      ClaimIs(ss[j], x);
      ClaimStory(g, ss, acts, j, x);
      assert AllocOk(g, ss[j], x);
    }
  }

  /** Being harmed means losing the address there and then; nothing but harm does that to a bystander. */
  lemma HarmIff(g: nat, s: Sys, s': Sys, act: Action, x: nat)
    requires g > 0 && Inv(g, s) && Next(g, s, s', act) && x in s.allocs && !(act.Step? && act.x == x)
    requires !s.allocs[x].phase.Replaced? && HasAddress(s, x)
    ensures x in s'.allocs && s'.allocs[x].phase == s.allocs[x].phase
    ensures HasAddress(s', x) <==> !Harms(g, s, act, x)
  {
    NextInv(g, s, s', act);
    Bystander(g, s, s', act, x);
    ClaimIs(s, x);
    ClaimIs(s', x);
  }

  // --- Reports -------------------------------------------------------------------------------------------------------

  lemma ReportShape(g: nat, s: Sys, s': Sys, x: nat)
    requires g > 0 && x in s.allocs && AllocOk(g, s, x) && Next(g, s, s', Step(x, ReportSleep))
    ensures x in s'.allocs && s'.allocs[x] == s.allocs[x].(job := Idle, phase := Asleep)
    ensures s.allocs[x].own == map[] && (s.allocs[x].claim == Given ==> s.err)
  {
  }

  ghost predicate HarmedWithin(g: nat, ss: seq<Sys>, acts: seq<Action>, i: nat, j: nat, x: nat)
    requires g > 0 && i <= j <= |acts| < |ss|
  {
    exists k :: i <= k < j && Harms(g, ss[k], acts[k], x)
  }

  lemma HarmedMore(g: nat, ss: seq<Sys>, acts: seq<Action>, i: nat, j: nat, x: nat)
    requires g > 0 && i < j <= |acts| < |ss|
    ensures HarmedWithin(g, ss, acts, i, j, x) <==>
        HarmedWithin(g, ss, acts, i, j - 1, x) || Harms(g, ss[j - 1], acts[j - 1], x)
  {
  }

  /** x's sleep has reserved again, and nothing has gone wrong since. */
  predicate Restored(err: bool, a: Alloc) {
    a.job == Sleep && (a.phase.Replaced? || (a.phase == Reporting && !err))
  }

  lemma RestoredEffect(g: nat, err: bool, resets: nat, a: Alloc, op: Op)
    requires g > 0 && Allowed(g, a, op)
    ensures var m := Effect(g, err, resets, a, op);
            Restored(m.err, m.a) ==>
              || (op.Rereserve? && op.ok && m.a.claim == Held)
              || (Restored(err, a) && m.a.claim == a.claim && op != BeginSleep)
  {
  }

  /** x begins no sleep between steps k and j. */
  ghost predicate SameSleep(acts: seq<Action>, k: nat, j: nat, x: nat)
    requires j <= |acts|
  {
    forall m :: k < m < j ==> acts[m] != Step(x, BeginSleep)
  }

  /** A flag r that is only ever raised by a step n, together with c, and is then kept by steps other than b, during
      which c is lost only by a step h: if r is up, c is up exactly if there was no h since the last n. */
  lemma {:induction false} LastRaise(r: seq<bool>, n: seq<bool>, b: seq<bool>, c: seq<bool>, h: seq<bool>, j: nat)
      returns (k: nat)
    requires |r| == |c| == |n| + 1 && |b| == |h| == |n| && j < |r| && r[j] && !r[0]
    requires forall m {:trigger n[m]} :: 0 <= m < j && r[m + 1] ==>
      (n[m] && c[m + 1]) || (r[m] && !b[m] && c[m + 1] == (c[m] && !h[m]))
    ensures k < j && n[k] && forall m :: k < m < j ==> !b[m]
    ensures c[j] <==> forall m :: k < m < j ==> !h[m]
    decreases j
  {
    if n[j - 1] && c[j] {
      k := j - 1;
    } else {
      assert n[j - 1] || !n[j - 1];
      k := LastRaise(r, n, b, c, h, j - 1);
    }
  }

  /** A sleep in which everything went well so far reserved again at k, and has the reservation exactly if it was not
      taken away since. */
  lemma SleepStory(g: nat, ss: seq<Sys>, acts: seq<Action>, j: nat, x: nat) returns (k: nat)
    requires g > 0 && Run(g, ss, acts) && j <= |acts| && x in ss[j].allocs && Restored(ss[j].err, ss[j].allocs[x])
    ensures k < j && Rereserves(acts[k], x) && SameSleep(acts, k, j, x)
    ensures ss[j].allocs[x].claim == Held <==> !HarmedWithin(g, ss, acts, k + 1, j, x)
  {
    var r := seq(|ss|, m requires 0 <= m < |ss| => x in ss[m].allocs && Restored(ss[m].err, ss[m].allocs[x]));
    var c := seq(|ss|, m requires 0 <= m < |ss| => x in ss[m].allocs && ss[m].allocs[x].claim == Held);
    var n := seq(|acts|, m requires 0 <= m < |acts| => Rereserves(acts[m], x));
    var b := seq(|acts|, m requires 0 <= m < |acts| => acts[m] == Step(x, BeginSleep));
    var h := seq(|acts|, m requires 0 <= m < |acts| => Harms(g, ss[m], acts[m], x));
    forall m {:trigger n[m]} | 0 <= m < j && r[m + 1]
      ensures (n[m] && c[m + 1]) || (r[m] && !b[m] && c[m + 1] == (c[m] && !h[m]))
    {
      var anew := StoryAt(g, ss, acts, m + 1, x);
    }
    k := LastRaise(r, n, b, c, h, j);
    StoryTold(g, ss, acts, b, h, k, j, x);
  }

  lemma StoryTold(g: nat, ss: seq<Sys>, acts: seq<Action>, b: seq<bool>, h: seq<bool>, k: nat, j: nat, x: nat)
    requires g > 0 && k < j <= |acts| < |ss| && |b| == |h| == |acts|
    requires forall m :: 0 <= m < |acts| ==>
        b[m] == (acts[m] == Step(x, BeginSleep)) && h[m] == Harms(g, ss[m], acts[m], x)
    ensures (forall m :: k < m < j ==> !b[m]) ==> SameSleep(acts, k, j, x)
    ensures (forall m :: k < m < j ==> !h[m]) <==> !HarmedWithin(g, ss, acts, k + 1, j, x)
  {
    if HarmedWithin(g, ss, acts, k + 1, j, x) {
      var m :| k + 1 <= m < j && Harms(g, ss[m], acts[m], x);
      assert h[m];
    }
  }

  lemma StoryAt(g: nat, ss: seq<Sys>, acts: seq<Action>, j: nat, x: nat) returns (anew: bool)
    requires g > 0 && Run(g, ss, acts) && j <= |acts| && x in ss[j].allocs && Restored(ss[j].err, ss[j].allocs[x])
    ensures j > 0
    ensures anew ==> Rereserves(acts[j - 1], x) && ss[j].allocs[x].claim == Held
    ensures !anew ==>
      x in ss[j - 1].allocs && Restored(ss[j - 1].err, ss[j - 1].allocs[x]) && acts[j - 1] != Step(x, BeginSleep)
    ensures !anew ==>
      (ss[j].allocs[x].claim == Held <==> ss[j - 1].allocs[x].claim == Held && !Harms(g, ss[j - 1], acts[j - 1], x))
  {
    RunInv(g, ss, acts, j - 1);
    anew := StoryBack(g, ss[j - 1], ss[j], acts[j - 1], x);
  }

  lemma StoryBack(g: nat, s: Sys, s': Sys, act: Action, x: nat) returns (anew: bool)
    requires g > 0 && Inv(g, s) && Next(g, s, s', act) && x in s'.allocs && Restored(s'.err, s'.allocs[x])
    ensures anew ==> Rereserves(act, x) && s'.allocs[x].claim == Held
    ensures !anew ==> x in s.allocs && Restored(s.err, s.allocs[x]) && act != Step(x, BeginSleep)
    ensures !anew ==> (s'.allocs[x].claim == Held <==> s.allocs[x].claim == Held && !Harms(g, s, act, x))
  {
    if act.Step? && act.x == x {
      anew := act.op.Rereserve?;
      StoryOwn(g, s, s', x, act.op);
    } else {
      anew := false;
      StoryOther(g, s, s', act, x);
    }
  }

  lemma SeenKeeps(g: nat, s: Sys, act: Action, x: nat)
    requires g > 0 && x in s.allocs
    ensures var a := Seen(g, s, act, x);
            && a.job == s.allocs[x].job && a.phase == s.allocs[x].phase
            && (a.claim == Held <==> s.allocs[x].claim == Held && !Harms(g, s, act, x))
  {
  }

  lemma StoryOther(g: nat, s: Sys, s': Sys, act: Action, x: nat)
    requires g > 0 && Inv(g, s) && Next(g, s, s', act) && x in s'.allocs && !(act.Step? && act.x == x)
    requires Restored(s'.err, s'.allocs[x])
    ensures x in s.allocs && Restored(s.err, s.allocs[x])
    ensures s'.allocs[x].claim == Held <==> s.allocs[x].claim == Held && !Harms(g, s, act, x)
  {
    if x in s.allocs {
      Bystander(g, s, s', act, x);
      SeenKeeps(g, s, act, x);
      NotCleared(g, s, s', act, x);
    }
  }

  lemma StoryOwn(g: nat, s: Sys, s': Sys, x: nat, op: Op)
    requires g > 0 && Next(g, s, s', Step(x, op)) && x in s'.allocs && Restored(s'.err, s'.allocs[x])
    ensures op.Rereserve? ==> op.ok && s'.allocs[x].claim == Held
    ensures !op.Rereserve? ==>
        Restored(s.err, s.allocs[x]) && s'.allocs[x].claim == s.allocs[x].claim && op != BeginSleep
  {
    RestoredEffect(g, s.err, s.resets, s.allocs[x], op);
  }

  /** While x holds the lock nobody else clears the error code. */
  lemma NotCleared(g: nat, s: Sys, s': Sys, act: Action, x: nat)
    requires g > 0 && Inv(g, s) && Next(g, s, s', act) && x in s.allocs && Locks(s.allocs[x].job)
        && !(act.Step? && act.x == x)
    ensures s.err ==> s'.err
  {
    assert AllocOk(g, s, x);
    if act.Step? {
      assert AllocOk(g, s, act.x);
      EffectError(g, s.err, s.resets, s.allocs[act.x], act.op);
    }
  }

  /** A sleep that reports success owns no handle; it has reserved its address again at some step k, and has it exactly
      if it was not taken away since. */
  lemma SleepReports(g: nat, ss: seq<Sys>, acts: seq<Action>, i: nat, x: nat) returns (k: nat)
    requires g > 0 && Run(g, ss, acts) && i < |acts| && acts[i] == Step(x, ReportSleep)
    ensures x in ss[i].allocs && x in ss[i + 1].allocs && ss[i + 1].allocs[x].phase == Asleep
        && ss[i + 1].allocs[x].own == map[]
    ensures !ss[i].err ==>
      && k < i && Rereserves(acts[k], x) && SameSleep(acts, k, i, x)
      && (HasAddress(ss[i + 1], x) <==> !HarmedWithin(g, ss, acts, k + 1, i, x))
  {
    RunInv(g, ss, acts, i);
    RunInv(g, ss, acts, i + 1);
    assert AllocOk(g, ss[i], x);
    ReportShape(g, ss[i], ss[i + 1], x);
    ClaimIs(ss[i + 1], x);
    k := 0;
    if !ss[i].err {
      k := SleepStory(g, ss, acts, i, x);
    }
  }

  /** An allocation that is awake or asleep without its address, and was never harmed, has a sleep that reported an
      error. */
  lemma LossIsReported(g: nat, ss: seq<Sys>, acts: seq<Action>, j: nat, x: nat)
    requires g > 0 && Run(g, ss, acts) && j <= |acts| && x in ss[j].allocs && AtRest(ss[j].allocs[x])
    requires !HasAddress(ss[j], x) && !HarmedSince(g, ss, acts, j, x)
    ensures SleepFailedSince(ss, acts, j, x)
  {
    AddressKept(g, ss, acts, j, j, x);
  }

  lemma WakeShape(g: nat, s: Sys, s': Sys, x: nat)
    requires g > 0 && Inv(g, s) && Next(g, s, s', Step(x, ReportWake))
    ensures x in s.allocs && x in s'.allocs && s'.allocs[x].claim == s.allocs[x].claim
    ensures s'.allocs[x].phase == (if s.err then Asleep else Awake)
    ensures if s.err then s'.allocs[x].own == map[] else AllCalled(s'.allocs[x])
  {
    assert AllocOk(g, s, x);
    WakeEffect(g, s.err, s.resets, s.allocs[x]);
  }

  lemma WakeEffect(g: nat, err: bool, resets: nat, a: Alloc)
    requires g > 0 && Allowed(g, a, ReportWake) && a.since == resets && PhaseOk(g, err, true, a)
    ensures var a' := Effect(g, err, resets, a, ReportWake).a;
            && a'.claim == a.claim && a'.phase == (if err then Asleep else Awake)
            && if err then a'.own == map[] else AllCalled(a')
  {
  }

  /** In a wake that reports success every call succeeded; one that reports an error is asleep and owns nothing. */
  lemma WakeReports(g: nat, ss: seq<Sys>, acts: seq<Action>, i: nat, x: nat)
    requires g > 0 && Run(g, ss, acts) && i < |acts| && acts[i] == Step(x, ReportWake)
    ensures x in ss[i].allocs && x in ss[i + 1].allocs
    ensures var a := ss[i + 1].allocs[x];
            if ss[i].err then a.phase == Asleep && a.own == map[] else a.phase == Awake && AllCalled(a)
  {
    RunInv(g, ss, acts, i);
    WakeShape(g, ss[i], ss[i + 1], x);
  }

  // --- Having the address --------------------------------------------------------------------------------------------

  /** The steps in which a job gives up or replaces its own address: those of sleep, of a malloc that fails, and of
      free. */
  predicate MovesAddress(op: Op) {
    || op.FreeForSleep? || op.Rereserve? || op.Settle? || op.FreeAddress?
    || op.Accept? || op.Reject? || op.Drop? || op.Discard?
  }

  predicate MovesOwn(act: Action, x: nat) {
    act.Step? && act.x == x && MovesAddress(act.op)
  }

  lemma ClaimStays(g: nat, err: bool, resets: nat, a: Alloc, op: Op)
    requires g > 0 && Allowed(g, a, op) && !MovesAddress(op)
    ensures Effect(g, err, resets, a, op).a.claim == a.claim
  {
  }

  lemma ClaimStep(g: nat, s: Sys, s': Sys, act: Action, x: nat)
    requires g > 0 && Next(g, s, s', act) && x in s.allocs && !MovesOwn(act, x)
    ensures x in s'.allocs && (s'.allocs[x].claim == Held <==> s.allocs[x].claim == Held && !Harms(g, s, act, x))
  {
    if act.Step? && act.x == x {
      ClaimStays(g, s.err, s.resets, s.allocs[x], act.op);
    } else {
      Bystander(g, s, s', act, x);
    }
  }

  lemma {:induction false} Persists(c: seq<bool>, h: seq<bool>, i: nat, k: nat)
    requires i <= k < |c| && k <= |h| && forall n {:trigger h[n]} :: i <= n < k ==> c[n + 1] == (c[n] && !h[n])
    ensures c[k] <==> c[i] && forall n :: i <= n < k ==> !h[n]
    decreases k
  {
    if i < k {
      Persists(c, h, i, k - 1);
      assert c[k] == (c[k - 1] && !h[k - 1]);
    }
  }

  lemma SpanStep(g: nat, ss: seq<Sys>, acts: seq<Action>, i: nat, n: nat, x: nat)
    requires g > 0 && Steps(g, ss, acts) && i <= n < |acts| && x in ss[i].allocs && !MovesOwn(acts[n], x)
    ensures x in ss[n].allocs && x in ss[n + 1].allocs
    ensures ss[n + 1].allocs[x].claim == Held <==> ss[n].allocs[x].claim == Held && !Harms(g, ss[n], acts[n], x)
  {
    AddressFixed(g, ss, acts, i, n, x);
    assert Next(g, ss[n], ss[n + 1], acts[n]);
    ClaimStep(g, ss[n], ss[n + 1], acts[n], x);
  }

  /** The claim changes only by the job's own moves and by harm. */
  lemma ClaimSpan(g: nat, ss: seq<Sys>, acts: seq<Action>, i: nat, j: nat, x: nat)
    requires g > 0 && Steps(g, ss, acts) && i <= j <= |acts| && x in ss[i].allocs
    requires forall k :: i <= k < j ==> !MovesOwn(acts[k], x)
    ensures x in ss[j].allocs
    ensures ss[j].allocs[x].claim == Held <==> ss[i].allocs[x].claim == Held && !HarmedWithin(g, ss, acts, i, j, x)
  {
    AddressFixed(g, ss, acts, i, j, x);
    var c := seq(|ss|, n requires 0 <= n < |ss| => x in ss[n].allocs && ss[n].allocs[x].claim == Held);
    var h := seq(|acts|, n requires 0 <= n < |acts| => Harms(g, ss[n], acts[n], x));
    forall n | i <= n < j
      ensures c[n + 1] == (c[n] && !h[n])
    {
      SpanStep(g, ss, acts, i, n, x);
    }
    Persists(c, h, i, j);
    if HarmedWithin(g, ss, acts, i, j, x) {
      var n :| i <= n < j && Harms(g, ss[n], acts[n], x);
      assert h[n];
    }
  }

  /** Over any stretch of a run in which an allocation does not itself give up or replace its address, it has the
      address at the end exactly if it had it at the beginning and nobody took it away in between. */
  lemma AddressIff(g: nat, ss: seq<Sys>, acts: seq<Action>, i: nat, j: nat, x: nat)
    requires g > 0 && Run(g, ss, acts) && i <= j <= |acts| && x in ss[i].allocs
    requires forall k :: i <= k < j ==> !MovesOwn(acts[k], x)
    ensures x in ss[j].allocs
    ensures !ss[i].allocs[x].phase.Replaced? && !ss[j].allocs[x].phase.Replaced? ==>
      (HasAddress(ss[j], x) <==> HasAddress(ss[i], x) && !HarmedWithin(g, ss, acts, i, j, x))
  {
    ClaimSpan(g, ss, acts, i, j, x);
    if !ss[i].allocs[x].phase.Replaced? && !ss[j].allocs[x].phase.Replaced? {
      RunInv(g, ss, acts, i);
      RunInv(g, ss, acts, j);
      ClaimIs(ss[i], x);
      ClaimIs(ss[j], x);
    }
  }

  /** x's wake begins at step i and runs up to step j. */
  ghost predicate WakeRuns(ss: seq<Sys>, acts: seq<Action>, i: nat, j: nat, x: nat)
    requires i < j < |acts| < |ss|
  {
    && acts[i] == Step(x, BeginWake) && acts[j] == Step(x, ReportWake)
    && forall k :: i < k <= j ==> x in ss[k].allocs && ss[k].allocs[x].job == Wake
  }

  lemma WakingMove(g: nat, s: Sys, s': Sys, act: Action, x: nat)
    requires g > 0 && Next(g, s, s', act) && x in s.allocs && s.allocs[x].job == Wake
    ensures !MovesOwn(act, x)
  {
  }

  lemma WakeEnds(g: nat, s: Sys, s': Sys, x: nat)
    requires g > 0
    ensures Next(g, s, s', Step(x, BeginWake)) ==> x in s.allocs && s.allocs[x].phase == Asleep
    ensures Next(g, s, s', Step(x, ReportWake)) ==>
        x in s'.allocs && (s'.allocs[x].phase == Asleep || s'.allocs[x].phase == Awake)
  {
  }

  /** A wake ends with the address exactly if it began with it and nobody took it away meanwhile: a lost allocation can
      be woken, even successfully, but not to its address. */
  lemma WakeAddressIff(g: nat, ss: seq<Sys>, acts: seq<Action>, i: nat, j: nat, x: nat)
    requires g > 0 && Run(g, ss, acts) && i < j < |acts| && WakeRuns(ss, acts, i, j, x)
    ensures x in ss[i].allocs && x in ss[j + 1].allocs
    ensures HasAddress(ss[j + 1], x) <==> HasAddress(ss[i], x) && !HarmedWithin(g, ss, acts, i, j + 1, x)
  {
    WakeEnds(g, ss[i], ss[i + 1], x);
    WakeEnds(g, ss[j], ss[j + 1], x);
    forall k | i <= k < j + 1
      ensures !MovesOwn(acts[k], x)
    {
      if k > i {
        WakingMove(g, ss[k], ss[k + 1], acts[k], x);
      }
    }
    AddressIff(g, ss, acts, i, j + 1, x);
  }

  // --- Handles -------------------------------------------------------------------------------------------------------

  ghost predicate OwnedBy(s: Sys, h: nat, x: nat) {
    x in s.allocs && h in Owned(s.allocs[x])
  }

  ghost predicate Leaked(s: Sys, h: nat) {
    h in s.live && s.live[h] == None
  }

  lemma OneOwner(s: Sys, h: nat)
    requires HandlesOk(s)
    ensures h in s.live && !Leaked(s, h) <==> exists x :: OwnedBy(s, h, x)
    ensures forall x, y :: OwnedBy(s, h, x) && OwnedBy(s, h, y) ==> x == y
  {
    if h in s.live && !Leaked(s, h) {
      assert OwnedBy(s, h, s.live[h].value);
    }
  }

  lemma IdleOwner(g: nat, s: Sys, h: nat, x: nat)
    requires g > 0 && Inv(g, s) && OwnedBy(s, h, x) && s.allocs[x].job == Idle
    ensures s.allocs[x].phase == Awake
  {
    assert AllocOk(g, s, x);
    NoHandles();
  }

  /** Every live handle belongs to exactly one allocation, or was leaked and belongs to none; owned handles are live.
      When no job is running the owner is awake. */
  lemma HandlesOwned(g: nat, ss: seq<Sys>, acts: seq<Action>, i: nat, h: nat)
    requires g > 0 && Run(g, ss, acts) && i <= |acts|
    ensures h in ss[i].live && !Leaked(ss[i], h) <==> exists x :: OwnedBy(ss[i], h, x)
    ensures forall x, y :: OwnedBy(ss[i], h, x) && OwnedBy(ss[i], h, y) ==> x == y
    ensures forall x :: OwnedBy(ss[i], h, x) && ss[i].allocs[x].job == Idle ==> ss[i].allocs[x].phase == Awake
  {
    RunInv(g, ss, acts, i);
    OneOwner(ss[i], h);
    forall x | OwnedBy(ss[i], h, x) && ss[i].allocs[x].job == Idle
      ensures ss[i].allocs[x].phase == Awake
    {
      IdleOwner(g, ss[i], h, x);
    }
  }

  ghost predicate AnyLeaked(s: Sys) {
    exists h :: Leaked(s, h)
  }

  /** The steps that leave a handle behind: a release fails; a create succeeds while an error is pending; or an error is
      seen at the very end, when create_and_map has left handles. */
  predicate Leaves(err: bool, a: Alloc, op: Op) {
    match op
    case Undo(i, ok) => !ok
    case Release(i, ok) => !ok
    case SeeCreate => err && a.phase.Created? && a.phase.last.Some?
    case Return => err && a.own != map[]
    case ReportWake => err && a.own != map[]
    case _ => false
  }

  predicate Leaky(s: Sys, act: Action) {
    act.Step? && act.x in s.allocs && Leaves(s.err, s.allocs[act.x], act.op)
  }

  ghost predicate LeakyBefore(ss: seq<Sys>, acts: seq<Action>, i: nat)
    requires i <= |acts| < |ss|
  {
    exists j :: 0 <= j < i && Leaky(ss[j], acts[j])
  }

  lemma SomeHandle(own: map<nat, nat>)
    ensures own.Values == {} <==> own == map[]
  {
    if own != map[] {
      var i :| i in own;
      assert own[i] in own.Values;
    }
  }

  lemma LeakEffect(g: nat, err: bool, resets: nat, a: Alloc, op: Op)
    requires g > 0 && Allowed(g, a, op) && Injective(a.own)
    requires a.phase.Created? ==> a.phase.k !in a.own && (a.phase.last.Some? ==> a.phase.last.value !in a.own.Values)
    requires a.phase == Reserved || a.phase == Discarding || a.phase == Freeing ==> a.own == map[]
    ensures var m := Effect(g, err, resets, a, op).handle;
            && (Leaves(err, a, op) <==> m.Leak? && m.hs != {})
            && (m.Leak? ==> m.hs <= Owned(a)) && (m.Destroy? ==> m.h in Owned(a))
  {
    SomeHandle(a.own);
    EffectHandle(g, err, resets, a, op);
  }

  lemma LeakMove(s: Sys, x: nat, m: HandleMove)
    requires HandlesOk(s) && x in s.allocs
    requires m.New? ==> m.h !in s.live
    requires m.Leak? ==> m.hs <= Owned(s.allocs[x])
    requires m.Destroy? ==> m.h in Owned(s.allocs[x])
    ensures var s' := s.(live := MoveHandle(s, x, m)); AnyLeaked(s') <==> AnyLeaked(s) || (m.Leak? && m.hs != {})
  {
    var s' := s.(live := MoveHandle(s, x, m));
    if AnyLeaked(s) {
      var h :| Leaked(s, h);
      assert Leaked(s', h);
    } else if m.Leak? && m.hs != {} {
      var h :| h in m.hs;
      assert h in Owned(s.allocs[x]);
      assert Leaked(s', h);
    } else if AnyLeaked(s') {
      var h :| Leaked(s', h);
      assert Leaked(s, h);
    }
  }

  lemma LeakStep(g: nat, s: Sys, s': Sys, act: Action)
    requires g > 0 && Inv(g, s) && Next(g, s, s', act)
    ensures AnyLeaked(s') <==> AnyLeaked(s) || Leaky(s, act)
  {
    if act.Step? {
      assert AllocOk(g, s, act.x);
      LeakEffect(g, s.err, s.resets, s.allocs[act.x], act.op);
      var m := Effect(g, s.err, s.resets, s.allocs[act.x], act.op);
      LeakMove(s, act.x, m.handle);
      ClearedAside(s, act.x, m);
      SameLeaks(s', s.(live := MoveHandle(s, act.x, m.handle)));
    } else {
      SameLeaks(s', s);
    }
  }

  lemma SameLeaks(s: Sys, t: Sys)
    requires s.live == t.live
    ensures AnyLeaked(s) <==> AnyLeaked(t)
  {
    assert forall h :: Leaked(s, h) <==> Leaked(t, h);
  }

  /** Handles leak in exactly the runs that contain a leaky step. */
  lemma {:induction false} LeakIff(g: nat, ss: seq<Sys>, acts: seq<Action>, i: nat)
    requires g > 0 && Run(g, ss, acts) && i <= |acts|
    ensures AnyLeaked(ss[i]) <==> LeakyBefore(ss, acts, i)
  {
    if i == 0 {
      assert !AnyLeaked(ss[0]);
    } else {
      LeakIff(g, ss, acts, i - 1);
      RunInv(g, ss, acts, i - 1);
      LeakStep(g, ss[i - 1], ss[i], acts[i - 1]);
      OneStepMore(ss, acts, i);
    }
  }

  lemma OneStepMore(ss: seq<Sys>, acts: seq<Action>, i: nat)
    requires 0 < i <= |acts| < |ss|
    ensures LeakyBefore(ss, acts, i) <==> LeakyBefore(ss, acts, i - 1) || Leaky(ss[i - 1], acts[i - 1])
  {
  }
}
