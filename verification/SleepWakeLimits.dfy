/** Where the lifecycle's guarantees end, and exactly when. */
module SleepWakeLimits {
  import opened Wrappers
  import opened SleepWake
  import opened SleepWakeRuns
  import opened SleepWakeMaps

  // --- Freeing without the address -----------------------------------------------------------------------------------

  lemma FreeHarms(g: nat, s: Sys, x: nat, ok: bool, y: nat)
    requires g > 0 && x in s.allocs && Allowed(g, s.allocs[x], FreeAddress(ok)) && y != x
    ensures Harms(g, s, Step(x, FreeAddress(ok)), y) <==>
              ok && s.allocs[x].base in s.reserved && s.reserved[s.allocs[x].base].holder == Some(y)
  {
  }

  /** The address of an allocation that lost it is freed. The others keep theirs exactly if the driver refuses or the
      range is nobody's at that moment. */
  lemma FreeingLost(g: nat, s: Sys, s': Sys, x: nat, ok: bool)
    requires g > 0 && Inv(g, s) && Next(g, s, s', Step(x, FreeAddress(ok))) && s.allocs[x].claim != Held
    ensures (forall y :: y in s.allocs && y != x && !s.allocs[y].phase.Replaced? && HasAddress(s, y) ==>
             HasAddress(s', y)) <==>
            !(ok && exists y :: TakenFrom(s, x, y))
  {
    forall y | y in s.allocs && y != x && !s.allocs[y].phase.Replaced? && HasAddress(s, y)
      ensures y in s'.allocs && (HasAddress(s', y) <==> !(ok && TakenFrom(s, x, y)))
    {
      HarmIff(g, s, s', Step(x, FreeAddress(ok)), y);
      FreeHarms(g, s, x, ok, y);
    }
  }

  /** y, not in the middle of a re-reservation, holds the range at x's address. */
  predicate TakenFrom(s: Sys, x: nat, y: nat)
    requires x in s.allocs
  {
    && y in s.allocs && y != x && !s.allocs[y].phase.Replaced? && HasAddress(s, y)
    && s.allocs[y].base == s.allocs[x].base
  }

  // --- The shared error code -----------------------------------------------------------------------------------------

  /** Everything asked for so far is there. */
  predicate Fine(a: Alloc) {
    match a.phase
    case Creating(k) => Made(a, k)
    case Created(k, last) => Made(a, k) && last.Some?
    case Backing(k, end) => false
    case Undoing => false
    case Mapping(k) => Made(a, |a.chunks|) && Called(a, k)
    case MapCalled(k) => Made(a, |a.chunks|) && Called(a, k + 1)
    case Returned(full) => AllCalled(a)
    case _ => true
  }

  /** The job meets an error: one of its own calls fails, or it sees one before its last call. */
  predicate Meets(err: bool, a: Alloc, op: Op) {
    match op
    case Create(ok, h) => !ok
    case SeeCreate => err
    case Map(ok) => !ok
    case SeeMap => err && a.phase.MapCalled? && a.phase.k < |a.chunks| + 1
    case _ => false
  }

  predicate InMalloc(a: Alloc) {
    a.job == Malloc && a.phase != Discarding
  }

  lemma FineCreates(g: nat, err: bool, resets: nat, a: Alloc, op: Op)
    requires g > 0 && Allowed(g, a, op) && (op.Create? || op.SeeCreate?) && InMalloc(a)
    requires a.phase.k < |a.chunks| && Below(a, a.phase.k)
    ensures var a' := Effect(g, err, resets, a, op).a; InMalloc(a') ==> (Fine(a') <==> Fine(a) && !Meets(err, a, op))
  {
    var a' := Effect(g, err, resets, a, op).a;
    if op.SeeCreate? {
      assert a.phase.last.None? ==> a.phase.k !in a'.own;
      assert !err && a.phase.last.Some? ==> forall i :: i in a'.own <==> i in a.own || i == a.phase.k;
    }
  }

  lemma FineMaps(g: nat, err: bool, resets: nat, a: Alloc, op: Op)
    requires g > 0 && Allowed(g, a, op) && (op.Map? || op.SeeMap?) && InMalloc(a)
    requires a.phase.k < |a.chunks| + 2 && DoneBelow(a, if op.Map? then a.phase.k else a.phase.k + 1)
    ensures var a' := Effect(g, err, resets, a, op).a; InMalloc(a') ==> (Fine(a') <==> Fine(a) && !Meets(err, a, op))
  {
    var a' := Effect(g, err, resets, a, op).a;
    if op.SeeMap? {
      assert a.phase.k == |a.chunks| && err ==> |a.chunks| + 1 !in a'.done;
    } else {
      assert !op.ok ==> a.phase.k !in a'.done;
    }
  }

  lemma FineEffect(g: nat, err: bool, resets: nat, a: Alloc, op: Op)
    requires g > 0 && Allowed(g, a, op) && PhaseOk(g, err, a.since == resets, a) && InMalloc(a)
    ensures var a' := Effect(g, err, resets, a, op).a; InMalloc(a') ==> (Fine(a') <==> Fine(a) && !Meets(err, a, op))
  {
    if op.Create? || op.SeeCreate? {
      FineCreates(g, err, resets, a, op);
    } else if op.Map? || op.SeeMap? {
      FineMaps(g, err, resets, a, op);
    } else if op == UndoDone {
      assert 0 !in a.own;
    }
  }

  predicate MeetsAt(s: Sys, act: Action, x: nat) {
    act.Step? && act.x == x && x in s.allocs && Meets(s.err, s.allocs[x], act.op)
  }

  /** A report clears the error code. */
  predicate Clears(s: Sys, act: Action) {
    act.Step? && (act.op == ReportSleep || act.op == ReportWake) && s.err
  }

  ghost predicate MetBefore(ss: seq<Sys>, acts: seq<Action>, i: nat, x: nat)
    requires i <= |acts| < |ss|
  {
    exists j :: 0 <= j < i && MeetsAt(ss[j], acts[j], x)
  }

  lemma MetMore(ss: seq<Sys>, acts: seq<Action>, i: nat, x: nat)
    requires 0 < i <= |acts| < |ss|
    ensures MetBefore(ss, acts, i, x) <==> MetBefore(ss, acts, i - 1, x) || MeetsAt(ss[i - 1], acts[i - 1], x)
  {
  }

  lemma MallocBefore(g: nat, err: bool, resets: nat, a: Alloc, op: Op)
    requires g > 0 && Allowed(g, a, op) && InMalloc(Effect(g, err, resets, a, op).a)
    ensures InMalloc(a)
  {
  }

  lemma FineAside(g: nat, s: Sys, s': Sys, act: Action, x: nat)
    requires g > 0 && Next(g, s, s', act) && x in s.allocs && !(act.Step? && act.x == x)
    ensures x in s'.allocs && (InMalloc(s'.allocs[x]) <==> InMalloc(s.allocs[x]))
        && (Fine(s'.allocs[x]) <==> Fine(s.allocs[x]))
  {
    Bystander(g, s, s', act, x);
    SameFine(s.allocs[x], s'.allocs[x]);
  }

  lemma SameFine(a: Alloc, a': Alloc)
    requires a' == a.(claim := a'.claim, bound := a'.bound, gone := a'.gone)
    ensures Fine(a') <==> Fine(a)
  {
  }

  lemma FineStep(g: nat, s: Sys, s': Sys, act: Action, x: nat)
    requires g > 0 && Inv(g, s) && Next(g, s, s', act) && x in s'.allocs && InMalloc(s'.allocs[x])
    ensures x in s.allocs ==>
        InMalloc(s.allocs[x]) && (Fine(s'.allocs[x]) <==> Fine(s.allocs[x]) && !MeetsAt(s, act, x))
    ensures x !in s.allocs ==> Fine(s'.allocs[x]) && !MeetsAt(s, act, x)
  {
    if x in s.allocs {
      assert AllocOk(g, s, x);
      if act.Step? && act.x == x {
        MallocBefore(g, s.err, s.resets, s.allocs[x], act.op);
        FineEffect(g, s.err, s.resets, s.allocs[x], act.op);
      } else {
        FineAside(g, s, s', act, x);
      }
    }
  }

  lemma {:induction false} FineHistory(g: nat, ss: seq<Sys>, acts: seq<Action>, i: nat, x: nat)
    requires g > 0 && Run(g, ss, acts) && i <= |acts|
    ensures x !in ss[i].allocs ==> !MetBefore(ss, acts, i, x)
    ensures x in ss[i].allocs && InMalloc(ss[i].allocs[x]) ==> (Fine(ss[i].allocs[x]) <==> !MetBefore(ss, acts, i, x))
  {
    if i > 0 {
      FineHistory(g, ss, acts, i - 1, x);
      MetMore(ss, acts, i, x);
      FineAt(g, ss, acts, i, x);
    }
  }

  lemma FineAt(g: nat, ss: seq<Sys>, acts: seq<Action>, i: nat, x: nat)
    requires g > 0 && Run(g, ss, acts) && 0 < i <= |acts|
    ensures FineFrom(ss[i - 1], ss[i], acts[i - 1], x)
  {
    RunInv(g, ss, acts, i - 1);
    FineBetween(g, ss[i - 1], ss[i], acts[i - 1], x);
  }

  ghost predicate FineFrom(s: Sys, s': Sys, act: Action, x: nat) {
    && (x !in s'.allocs ==> x !in s.allocs && !MeetsAt(s, act, x))
    && (x in s'.allocs && InMalloc(s'.allocs[x]) && x in s.allocs ==>
          InMalloc(s.allocs[x]) && (Fine(s'.allocs[x]) <==> Fine(s.allocs[x]) && !MeetsAt(s, act, x)))
    && (x in s'.allocs && InMalloc(s'.allocs[x]) && x !in s.allocs ==> Fine(s'.allocs[x]) && !MeetsAt(s, act, x))
  }

  lemma FineBetween(g: nat, s: Sys, s': Sys, act: Action, x: nat)
    requires g > 0 && Inv(g, s) && Next(g, s, s', act)
    ensures FineFrom(s, s', act, x)
  {
    StaysKnown(g, s, s', act, x);
    if x in s'.allocs && InMalloc(s'.allocs[x]) {
      FineStep(g, s, s', act, x);
    }
  }

  lemma StaysKnown(g: nat, s: Sys, s': Sys, act: Action, x: nat)
    requires g > 0 && Next(g, s, s', act)
    ensures x in s.allocs ==> x in s'.allocs
  {
    if x in s.allocs {
      SameAddress(g, s, s', act, x);
    }
  }

  lemma MeetingShows(g: nat, s: Sys, s': Sys, act: Action, x: nat)
    requires g > 0 && Next(g, s, s', act) && MeetsAt(s, act, x)
    ensures s'.err
  {
  }

  lemma ClearedBy(g: nat, s: Sys, s': Sys, act: Action)
    requires g > 0 && Next(g, s, s', act) && s.err && !s'.err
    ensures Clears(s, act)
  {
    if act.Step? {
      ClearingOp(g, s.err, s.resets, s.allocs[act.x], act.op);
    }
  }

  lemma ClearingOp(g: nat, err: bool, resets: nat, a: Alloc, op: Op)
    requires g > 0 && Allowed(g, a, op) && err && !Effect(g, err, resets, a, op).err
    ensures op == ReportSleep || op == ReportWake
  {
  }

  /** A flag that is up at i and down at r falls somewhere in between. */
  lemma {:induction false} Falls(e: seq<bool>, i: nat, r: nat) returns (j: nat)
    requires i <= r < |e| && e[i] && !e[r]
    ensures i <= j < r && e[j] && !e[j + 1]
    decreases r
  {
    if e[r - 1] {
      j := r - 1;
    } else {
      j := Falls(e, i, r - 1);
    }
  }

  /** Between a point with the error raised and one with it clear there is a report. */
  lemma SomeReport(g: nat, ss: seq<Sys>, acts: seq<Action>, i: nat, r: nat) returns (j: nat)
    requires g > 0 && Run(g, ss, acts) && i <= r <= |acts| && ss[i].err && !ss[r].err
    ensures i <= j < r && Clears(ss[j], acts[j])
  {
    var e := seq(|ss|, n requires 0 <= n < |ss| => ss[n].err);
    j := Falls(e, i, r);
    ClearedBy(g, ss[j], ss[j + 1], acts[j]);
  }

  /** Some sleep or wake reported and cleared the error code after x's malloc had met an error. */
  ghost predicate Hidden(ss: seq<Sys>, acts: seq<Action>, r: nat, x: nat)
    requires r <= |acts| < |ss|
  {
    exists i, j :: 0 <= i < j < r && MeetsAt(ss[i], acts[i], x) && Clears(ss[j], acts[j])
  }

  // --- Unmapped behind its back --------------------------------------------------------------------------------------

  /** Another allocation's unmap call succeeds at the address of x's chunk i, which x had mapped. */
  predicate Unseats(s: Sys, act: Action, x: nat, i: nat) {
    && act.Step? && act.x != x && UnmapsAt(s, act).Some? && x in s.allocs
    && i < |s.allocs[x].chunks| && i in s.allocs[x].done && s.allocs[x].chunks[i].addr == UnmapsAt(s, act).value
  }

  ghost predicate UnseatedWithin(ss: seq<Sys>, acts: seq<Action>, b: nat, j: nat, x: nat, i: nat)
    requires b <= j <= |acts| < |ss|
  {
    exists k :: b <= k < j && Unseats(ss[k], acts[k], x, i)
  }

  ghost predicate AnyUnseated(ss: seq<Sys>, acts: seq<Action>, b: nat, j: nat, x: nat)
    requires b <= j <= |acts| < |ss|
  {
    exists i :: UnseatedWithin(ss, acts, b, j, x, i)
  }

  /** No call has succeeded yet, or the memory is in use with all its handles. */
  predicate InLife(a: Alloc) {
    a.done == {} || (InUse(a.phase) && Made(a, |a.chunks|))
  }

  /** Chunk i was mapped, and others have unmapped it since. */
  predicate Missing(a: Alloc, i: nat) {
    i in a.done && i in a.gone
  }

  lemma LifeEffect(g: nat, err: bool, resets: nat, a: Alloc, op: Op, i: nat)
    requires g > 0 && Allowed(g, a, op) && op != BeginWake && i < |a.chunks|
    requires (a.phase.Mapping? ==> DoneBelow(a, a.phase.k)) && (a.phase == Undoing ==> |a.chunks| > 0)
    requires a.phase == Reserved || a.phase.Creating? || a.phase.Created? ==> a.done == {}
    ensures var a' := Effect(g, err, resets, a, op).a; InLife(a') ==> InLife(a) && (Missing(a', i) <==> Missing(a, i))
  {
    if op == UndoDone {
      assert 0 !in a.own;
    }
  }

  lemma LifeOther(g: nat, s: Sys, s': Sys, act: Action, x: nat, i: nat)
    requires g > 0 && MapsOk(s) && Next(g, s, s', act) && x in s.allocs && !(act.Step? && act.x == x)
    requires x in s'.allocs && InLife(s'.allocs[x]) && (InUse(s.allocs[x].phase) ==> Current(s.allocs[x]))
        && i < |s.allocs[x].chunks|
    ensures InLife(s.allocs[x]) && (Missing(s'.allocs[x], i) <==> Missing(s.allocs[x], i) || Unseats(s, act, x, i))
  {
    Bystander(g, s, s', act, x);
    TakenIff(s, act, x, i);
  }

  /** A chunk in use that is still there is taken exactly by an unmap at its address. */
  lemma TakenIff(s: Sys, act: Action, x: nat, i: nat)
    requires MapsOk(s) && x in s.allocs && !(act.Step? && act.x == x) && i < |s.allocs[x].chunks|
    ensures Takes(s, act, x, i) && i in s.allocs[x].done ==> Unseats(s, act, x, i)
    ensures Unseats(s, act, x, i) && i in s.allocs[x].bound ==> Takes(s, act, x, i)
  {
    if Takes(s, act, x, i) {
      assert LabelOk(s, UnmapsAt(s, act).value);
    }
    if i in s.allocs[x].bound {
      assert BindingOk(s, x, i);
    }
  }

  lemma LifeStep(g: nat, s: Sys, s': Sys, act: Action, x: nat, i: nat)
    requires g > 0 && Inv(g, s) && Next(g, s, s', act) && x in s.allocs && act != Step(x, BeginWake)
    requires x in s'.allocs && InLife(s'.allocs[x]) && i < |s.allocs[x].chunks|
    ensures InLife(s.allocs[x]) && (Missing(s'.allocs[x], i) <==> Missing(s.allocs[x], i) || Unseats(s, act, x, i))
  {
    assert AllocOk(g, s, x);
    if act.Step? && act.x == x {
      LifeEffect(g, s.err, s.resets, s.allocs[x], act.op, i);
    } else {
      LifeOther(g, s, s', act, x, i);
    }
  }

  lemma UnseatedMore(ss: seq<Sys>, acts: seq<Action>, b: nat, j: nat, x: nat, i: nat)
    requires b < j <= |acts| < |ss|
    ensures UnseatedWithin(ss, acts, b, j, x, i) <==>
        UnseatedWithin(ss, acts, b, j - 1, x, i) || Unseats(ss[j - 1], acts[j - 1], x, i)
  {
  }

  /** From step b, where x had mapped nothing, up to j x begins no wake. */
  ghost predicate OneLife(ss: seq<Sys>, acts: seq<Action>, b: nat, j: nat, x: nat)
    requires b <= j <= |acts| < |ss|
  {
    (x in ss[b].allocs ==> ss[b].allocs[x].done == {}) && forall k :: b <= k < j ==> acts[k] != Step(x, BeginWake)
  }

  lemma {:induction false} GoneHistory(g: nat, ss: seq<Sys>, acts: seq<Action>, b: nat, j: nat, x: nat, i: nat)
    requires g > 0 && Run(g, ss, acts) && b <= j <= |acts| && OneLife(ss, acts, b, j, x)
    ensures x !in ss[j].allocs ==> !UnseatedWithin(ss, acts, b, j, x, i)
    ensures x in ss[j].allocs && InLife(ss[j].allocs[x]) && i < |ss[j].allocs[x].chunks| ==>
      (Missing(ss[j].allocs[x], i) <==> UnseatedWithin(ss, acts, b, j, x, i))
    decreases j
  {
    if b < j {
      GoneHistory(g, ss, acts, b, j - 1, x, i);
      UnseatedMore(ss, acts, b, j, x, i);
      HistoryStep(g, ss, acts, j, x, i);
    }
  }

  lemma HistoryStep(g: nat, ss: seq<Sys>, acts: seq<Action>, j: nat, x: nat, i: nat)
    requires g > 0 && Run(g, ss, acts) && 0 < j <= |acts| && acts[j - 1] != Step(x, BeginWake)
    ensures x !in ss[j].allocs ==> x !in ss[j - 1].allocs && !Unseats(ss[j - 1], acts[j - 1], x, i)
    ensures x in ss[j].allocs && x !in ss[j - 1].allocs ==>
        !Missing(ss[j].allocs[x], i) && !Unseats(ss[j - 1], acts[j - 1], x, i)
    ensures x in ss[j].allocs && x in ss[j - 1].allocs && InLife(ss[j].allocs[x]) && i < |ss[j].allocs[x].chunks| ==>
      && InLife(ss[j - 1].allocs[x]) && i < |ss[j - 1].allocs[x].chunks|
      && (Missing(ss[j].allocs[x], i) <==> Missing(ss[j - 1].allocs[x], i) || Unseats(ss[j - 1], acts[j - 1], x, i))
  {
    RunInv(g, ss, acts, j - 1);
    assert Next(g, ss[j - 1], ss[j], acts[j - 1]);
    StaysKnown(g, ss[j - 1], ss[j], acts[j - 1], x);
    if x in ss[j - 1].allocs {
      SameAddress(g, ss[j - 1], ss[j], acts[j - 1], x);
      if InLife(ss[j].allocs[x]) && i < |ss[j].allocs[x].chunks| {
        LifeStep(g, ss[j - 1], ss[j], acts[j - 1], x, i);
      }
    } else if x in ss[j].allocs {
      NewComer(g, ss[j - 1], ss[j], acts[j - 1], x);
    }
  }

  lemma NewComer(g: nat, s: Sys, s': Sys, act: Action, x: nat)
    requires g > 0 && Next(g, s, s', act) && x !in s.allocs && x in s'.allocs
    ensures s'.allocs[x].done == {} && s'.allocs[x].job == Malloc
  {
  }

  lemma BackedIs(g: nat, s: Sys, x: nat)
    requires g > 0 && Inv(g, s) && x in s.allocs && InUse(s.allocs[x].phase) && AllCalled(s.allocs[x])
    ensures Backed(s, x) <==> forall i :: 0 <= i < |s.allocs[x].chunks| ==> !Missing(s.allocs[x], i)
  {
    assert AllocOk(g, s, x);
    forall i | 0 <= i < |s.allocs[x].chunks|
      ensures HasChunk(s, x, i) <==> !Missing(s.allocs[x], i)
    {
      HasChunkIs(s, x, i);
    }
  }

  /** Memory whose calls all succeeded is there exactly as long as no other allocation's unmap call has succeeded at one
      of its chunks' addresses. */
  lemma InUseIff(g: nat, ss: seq<Sys>, acts: seq<Action>, b: nat, j: nat, x: nat)
    requires g > 0 && Run(g, ss, acts) && b <= j <= |acts| && OneLife(ss, acts, b, j, x)
    requires x in ss[j].allocs && InUse(ss[j].allocs[x].phase) && AllCalled(ss[j].allocs[x])
    ensures Backed(ss[j], x) <==> !AnyUnseated(ss, acts, b, j, x)
  {
    RunInv(g, ss, acts, j);
    BackedIs(g, ss[j], x);
    forall i
      ensures 0 <= i < |ss[j].allocs[x].chunks| ==>
          (Missing(ss[j].allocs[x], i) <==> UnseatedWithin(ss, acts, b, j, x, i))
      ensures i >= |ss[j].allocs[x].chunks| ==> !UnseatedWithin(ss, acts, b, j, x, i)
    {
      if 0 <= i < |ss[j].allocs[x].chunks| {
        GoneHistory(g, ss, acts, b, j, x, i);
      } else if i >= |ss[j].allocs[x].chunks| {
        NoSuchChunk(g, ss, acts, b, j, x, i);
      }
    }
  }

  lemma NoSuchChunk(g: nat, ss: seq<Sys>, acts: seq<Action>, b: nat, j: nat, x: nat, i: nat)
    requires g > 0 && Run(g, ss, acts) && b <= j <= |acts| && x in ss[j].allocs && i >= |ss[j].allocs[x].chunks|
    ensures !UnseatedWithin(ss, acts, b, j, x, i)
  {
    forall k | b <= k < j
      ensures !Unseats(ss[k], acts[k], x, i)
    {
      if x in ss[k].allocs {
        AddressFixed(g, ss, acts, k, j, x);
      }
    }
  }

  // --- What a returned address has -----------------------------------------------------------------------------------

  /** A malloc that returns an address has every chunk mapped to its own handle, and the range opened and zeroed,
      exactly if no sleep or wake cleared the error code after the malloc had met an error, and no other allocation's
      unmap call succeeded at the address of a chunk that the malloc had mapped. */
  lemma BackedIff(g: nat, ss: seq<Sys>, acts: seq<Action>, r: nat, x: nat)
    requires g > 0 && Run(g, ss, acts) && r < |acts| && acts[r] == Step(x, Return) && !ss[r].err
    ensures x in ss[r + 1].allocs && ss[r + 1].allocs[x].phase == Awake
    ensures Backed(ss[r + 1], x) <==> !Hidden(ss, acts, r, x) && !AnyUnseated(ss, acts, 0, r, x)
  {
    assert Next(g, ss[r], ss[r + 1], acts[r]);
    ReturnShape(g, ss[r], ss[r + 1], x);
    RunInv(g, ss, acts, r);
    CallsIff(g, ss, acts, r, x);
    if AllCalled(ss[r].allocs[x]) {
      FirstLife(g, ss, acts, r, x);
      InUseIff(g, ss, acts, 0, r, x);
    } else if Backed(ss[r], x) {
      BackedCalls(g, ss[r], x);
    }
  }

  lemma CallsIff(g: nat, ss: seq<Sys>, acts: seq<Action>, r: nat, x: nat)
    requires g > 0 && Run(g, ss, acts) && r < |acts| && acts[r] == Step(x, Return) && !ss[r].err
    ensures x in ss[r].allocs && (AllCalled(ss[r].allocs[x]) <==> !Hidden(ss, acts, r, x))
  {
    assert Next(g, ss[r], ss[r + 1], acts[r]);
    ReturnShape(g, ss[r], ss[r + 1], x);
    FineHistory(g, ss, acts, r, x);
    if MetBefore(ss, acts, r, x) {
      var i :| 0 <= i < r && MeetsAt(ss[i], acts[i], x);
      MeetingShows(g, ss[i], ss[i + 1], acts[i], x);
      var j := SomeReport(g, ss, acts, i + 1, r);
    }
  }

  /** What a malloc finds mapped, it has mapped. */
  lemma BackedCalls(g: nat, s: Sys, x: nat)
    requires g > 0 && Inv(g, s) && x in s.allocs && s.allocs[x].job == Malloc && Backed(s, x)
    ensures AllCalled(s.allocs[x])
  {
    assert AllocOk(g, s, x);
    forall i | 0 <= i < |s.allocs[x].chunks|
      ensures i in s.allocs[x].own && i in s.allocs[x].done
    {
      HasChunkIs(s, x, i);
      assert HasChunk(s, x, i);
    }
  }

  lemma {:induction false} FirstLife(g: nat, ss: seq<Sys>, acts: seq<Action>, j: nat, x: nat)
    requires g > 0 && Run(g, ss, acts) && j <= |acts| && (x in ss[j].allocs ==> ss[j].allocs[x].job == Malloc)
    ensures OneLife(ss, acts, 0, j, x)
    decreases j
  {
    if j > 0 {
      assert Next(g, ss[j - 1], ss[j], acts[j - 1]);
      StillMalloc(g, ss[j - 1], ss[j], acts[j - 1], x);
      FirstLife(g, ss, acts, j - 1, x);
    }
  }

  lemma StillMalloc(g: nat, s: Sys, s': Sys, act: Action, x: nat)
    requires g > 0 && Next(g, s, s', act) && (x in s'.allocs ==> s'.allocs[x].job == Malloc)
    ensures (x in s.allocs ==> s.allocs[x].job == Malloc) && act != Step(x, BeginWake)
  {
    StaysKnown(g, s, s', act, x);
    if x in s.allocs && !(act.Step? && act.x == x) {
      Bystander(g, s, s', act, x);
    }
  }

  lemma ReturnShape(g: nat, s: Sys, s': Sys, x: nat)
    requires g > 0 && Next(g, s, s', Step(x, Return)) && !s.err
    ensures x in s.allocs && InMalloc(s.allocs[x]) && s.allocs[x].phase.Returned?
    ensures x in s'.allocs && s'.allocs[x] == s.allocs[x].(job := Idle, phase := Awake) && s'.maps == s.maps
    ensures Backed(s', x) <==> Backed(s, x)
  {
    assert forall i :: 0 <= i < |s.allocs[x].chunks| ==> HasChunk(s', x, i) == HasChunk(s, x, i);
  }

  /** In particular when the error code was not cleared at all while the malloc ran; the address is then aligned. */
  lemma BackedWhenUndisturbed(g: nat, ss: seq<Sys>, acts: seq<Action>, i: nat, x: nat)
    requires g > 0 && Run(g, ss, acts) && i < |acts| && acts[i] == Step(x, Return) && !ss[i].err
    requires x in ss[i].allocs && ss[i].allocs[x].since == ss[i].resets
    ensures x in ss[i + 1].allocs && ss[i + 1].allocs[x].base % g == 0
    ensures Backed(ss[i + 1], x) <==> !AnyUnseated(ss, acts, 0, i, x)
  {
    RunInv(g, ss, acts, i);
    assert AllocOk(g, ss[i], x);
    ReturnShape(g, ss[i], ss[i + 1], x);
    BackedIff(g, ss, acts, i, x);
    CallsIff(g, ss, acts, i, x);
  }

  lemma WakeEndsUp(g: nat, ss: seq<Sys>, acts: seq<Action>, j: nat, x: nat)
    requires g > 0 && Run(g, ss, acts) && j < |acts| && acts[j] == Step(x, ReportWake) && !ss[j].err
    ensures x in ss[j + 1].allocs && ss[j + 1].allocs[x].phase == Awake && AllCalled(ss[j + 1].allocs[x])
  {
    WakeReports(g, ss, acts, j, x);
  }

  /** A wake that begins at step i and reports success at step j has the memory exactly if no other allocation's unmap
      call succeeded at the address of a chunk that the wake had mapped. */
  lemma WakeBackedIff(g: nat, ss: seq<Sys>, acts: seq<Action>, i: nat, j: nat, x: nat)
    requires g > 0 && Run(g, ss, acts) && i < j < |acts| && acts[j] == Step(x, ReportWake) && !ss[j].err
    requires acts[i] == Step(x, BeginWake) && forall k :: i < k <= j ==> acts[k] != Step(x, BeginWake)
    ensures x in ss[j + 1].allocs && ss[j + 1].allocs[x].phase == Awake
    ensures Backed(ss[j + 1], x) <==> !AnyUnseated(ss, acts, i + 1, j + 1, x)
  {
    WakeStart(g, ss[i], ss[i + 1], x);
    AfterWake(g, ss, acts, i + 1, j, x);
  }

  lemma AfterWake(g: nat, ss: seq<Sys>, acts: seq<Action>, b: nat, j: nat, x: nat)
    requires g > 0 && Run(g, ss, acts) && b <= j < |acts| && acts[j] == Step(x, ReportWake) && !ss[j].err
    requires OneLife(ss, acts, b, j + 1, x)
    ensures x in ss[j + 1].allocs && ss[j + 1].allocs[x].phase == Awake
    ensures Backed(ss[j + 1], x) <==> !AnyUnseated(ss, acts, b, j + 1, x)
  {
    WakeReports(g, ss, acts, j, x);
    InUseIff(g, ss, acts, b, j + 1, x);
  }

  lemma WakeStart(g: nat, s: Sys, s': Sys, x: nat)
    requires g > 0 && Next(g, s, s', Step(x, BeginWake))
    ensures x in s'.allocs && s'.allocs[x].done == {}
  {
  }
}
