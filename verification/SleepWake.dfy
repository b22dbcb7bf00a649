/**
 The allocator's lifecycle under concurrency: malloc, free, sleep and wake as interleaved driver calls and looks at the
 shared error code, one step each. Sleeps and wakes hold the interpreter lock from begin to report; malloc and free do
 not.

 The driver hands out ranges disjoint from all live reservations and new physical handles. It maps a chunk only where
 nothing is mapped, unmaps whatever is mapped at the address it is given, and opens or zeroes only what is mapped; any
 call may fail. `holder`, `live`'s labels and a binding's `x` and `i` only record which allocation, handle or map call
 something belongs to (`None`: nobody's any more); no step's outcome depends on them.
 */
module SleepWake {
  import opened Wrappers

  datatype Range = Range(size: nat, holder: Option<nat>)

  datatype Chunk = Chunk(addr: nat, size: nat)

  /** A chunk's address is mapped to a handle; chunk i of allocation x did it. */
  datatype Binding = Binding(size: nat, handle: nat, x: nat, i: nat)

  datatype Job = Idle | Malloc | Wake | Sleep | Free

  datatype Phase =
    | Reserved                                   // address reserved, error code not looked at yet
    | Creating(k: nat)                           // k create calls made and seen
    | Created(k: nat, last: Option<nat>)         // call k made, error code not looked at yet
    | Backing(k: nat, end: nat)                  // a map failed: k of the `end` chunks before it are unmapped again
    | Undoing                                    // releasing created handles after a failure
    | Mapping(k: nat)                            // k of the map, access and memset calls made and seen
    | MapCalled(k: nat)
    | Returned(full: bool)                       // create_and_map is back, having made all its calls or not
    | Discarding                                 // malloc failed, its address is to be freed
    | Awake
    | Unmapping(k: nat, left: set<nat>)          // k unmap calls made, of which those for `left` failed
    | Releasing(left: set<nat>, failed: bool)
    | Freeing                                    // the address is to be freed
    | Unreserved                                 // address freed by sleep, not yet reserved again
    | Replaced(got: nat)                         // the re-reservation came back with address `got`
    | Reporting                                  // sleep is about to look at the error code and return
    | Asleep                                     // marked asleep in the registry, whatever sleep reported
    | Gone

  /** An allocation's reservation: its own, given up by itself, or taken away by another allocation's free. */
  datatype Claim = Held | Given | Robbed

  /** An allocation: the handles it owns by chunk; the handles that its own map calls bound to its chunks' addresses and
      that are still bound there; which of its map (below the number of chunks n), access (n) and memset (n + 1) calls
      succeeded in its last create_and_map, and which chunks others have unmapped since; and the number of error reports
      before that began. */
  datatype Alloc = Alloc(
    base: nat,
    size: nat,
    chunks: seq<Chunk>,
    own: map<nat, nat>,
    bound: map<nat, nat>,
    done: set<nat>,
    gone: set<nat>,
    claim: Claim,
    since: nat,
    job: Job,
    phase: Phase)

  /** `resets` counts the times the shared error code was reported and cleared. */
  datatype Sys = Sys(
    reserved: map<nat, Range>,
    live: map<nat, Option<nat>>,
    maps: map<nat, Binding>,
    err: bool,
    resets: nat,
    lock: Option<nat>,
    allocs: map<nat, Alloc>)

  /** One step of an allocation's current job. `ok` is the driver's answer. */
  datatype Op =
    | Accept
    | Reject(ok: bool)                           // misaligned: given back
    | Drop                                       // malloc gives up and forgets the reservation
    | Create(ok: bool, h: nat)
    | SeeCreate
    | Undo(i: nat, ok: bool)                     // release chunk i's handle
    | UndoDone
    | Map(ok: bool)
    | SeeMap
    | Return
    | Discard(ok: bool)
    | BeginSleep
    | Unmap(ok: bool)
    | Release(i: nat, ok: bool)
    | Released
    | FreeForSleep(ok: bool)
    | Rereserve(ok: bool, got: nat)
    | Settle(ok: bool)
    | ReportSleep
    | BeginWake
    | ReportWake
    | BeginFree
    | FreeAddress(ok: bool)

  datatype Action =
    | Fault                                      // a call that changes nothing else fails somewhere
    | Reserve(x: nat, base: nat, size: nat, chunks: seq<Chunk>,
              explicit: bool)  // with or without an explicit alignment
    | Step(x: nat, op: Op)

  // --- Steps ---------------------------------------------------------------------------------------------------------

  predicate FreeRange(s: Sys, base: nat, size: nat) {
    base !in s.reserved && forall b :: b in s.reserved ==> base + size <= b || b + s.reserved[b].size <= base
  }

  /** The driver accepts to free exactly a live reservation. */
  predicate Freeable(s: Sys, base: nat, size: nat) {
    base in s.reserved && s.reserved[base].size == size
  }

  /** Nothing is mapped where the chunk lies. */
  predicate Vacant(s: Sys, c: Chunk) {
    c.addr !in s.maps && forall b :: b in s.maps ==> c.addr + c.size <= b || b + s.maps[b].size <= c.addr
  }

  /** The driver accepts to unmap exactly what is mapped, whoever mapped it. */
  predicate Mapped(s: Sys, c: Chunk) {
    c.addr in s.maps && s.maps[c.addr].size == c.size
  }

  predicate Filling(a: Alloc) {
    a.job == Malloc || a.job == Wake
  }

  predicate Emptying(a: Alloc) {
    a.job == Sleep || a.job == Free
  }

  /** What the job allows. The driver maps only a handle that was created. */
  predicate Allowed(g: nat, a: Alloc, op: Op)
    requires g > 0
  {
    match op
    case Accept => a.job == Malloc && a.phase == Reserved && a.base % g == 0
    case Reject(ok) => a.job == Malloc && a.phase == Reserved && a.base % g != 0
    case Drop => a.job == Malloc && a.phase == Reserved && a.base % g == 0
    case Create(ok, h) => Filling(a) && a.phase.Creating?
    case SeeCreate => Filling(a) && a.phase.Created?
    case Undo(i, ok) => Filling(a) && a.phase == Undoing && i in a.own
    case UndoDone => Filling(a) && a.phase == Undoing && a.own == map[]
    case Map(ok) => Filling(a) && a.phase.Mapping? && (ok && a.phase.k < |a.chunks| ==> a.phase.k in a.own)
    case SeeMap => Filling(a) && a.phase.MapCalled?
    case Return => a.job == Malloc && a.phase.Returned?
    case Discard(ok) => a.job == Malloc && a.phase == Discarding
    case BeginSleep => a.job == Idle && a.phase == Awake
    case Unmap(ok) => (Emptying(a) && a.phase.Unmapping?) || (Filling(a) && a.phase.Backing?)
    case Release(i, ok) => Emptying(a) && a.phase.Releasing? && i in a.own
    case Released => Emptying(a) && a.phase.Releasing? && a.own == map[]
    case FreeForSleep(ok) => a.job == Sleep && a.phase == Freeing
    case Rereserve(ok, got) => a.job == Sleep && a.phase == Unreserved
    case Settle(ok) => a.job == Sleep && a.phase.Replaced?
    case ReportSleep => a.job == Sleep && a.phase == Reporting
    case BeginWake => a.job == Idle && a.phase == Asleep
    case ReportWake => a.job == Wake && a.phase.Returned?
    case BeginFree => a.job == Idle && (a.phase == Awake || a.phase == Asleep)
    case FreeAddress(ok) => a.job == Free && a.phase == Freeing
  }

  /** What a step does to the reservations, to the handles and to the mappings. */
  datatype PlaceMove = Stay | Take(b: nat) | Give(b: nat) | Forget(b: nat)
  datatype HandleMove = Keep | New(h: nat) | Destroy(h: nat) | Leak(hs: set<nat>)
  datatype MapMove = NoMap | Bind(i: nat, h: nat) | Unbind(i: nat) | Touch
  datatype Move = Move(a: Alloc, place: PlaceMove, handle: HandleMove, mapping: MapMove, err: bool, reset: bool)

  function FirstPhase(n: nat): Phase {
    if n == 0 then Mapping(0) else Creating(0)
  }

  function UnmapPhase(n: nat, k: nat, left: set<nat>): Phase {
    if k >= n then Releasing(left, left != {}) else Unmapping(k, left)
  }

  function BackPhase(k: nat, end: nat): Phase {
    if k >= end then Undoing else Backing(k, end)
  }

  function Ended(a: Alloc): Alloc {
    a.(job := Idle, claim := Given, own := map[], phase := Gone)
  }

  /** Freeing range b, accepted by the driver or not. */
  function Vacate(a: Alloc, b: nat, ok: bool): PlaceMove {
    if ok then Give(b) else if a.claim == Held then Forget(b) else Stay
  }

  function LastHandle(p: Phase): set<nat>
    requires p.Created?
  {
    if p.last.Some? then {p.last.value} else {}
  }

  function DropHandle(a: Alloc, i: nat, ok: bool): HandleMove
    requires i in a.own
  {
    if ok then Destroy(a.own[i]) else Leak({a.own[i]})
  }

  /** The chunk that the next unmap call is for. */
  function UnmapIndex(a: Alloc): nat
    requires a.phase.Unmapping? || a.phase.Backing?
  {
    a.phase.k
  }

  /** A move that leaves reservations, handles and mappings alone. */
  function Only(a: Alloc, err: bool): Move {
    Move(a, Stay, Keep, NoMap, err, false)
  }

  /** The step of an allocation in state a, with the error code as it is. */
  function Effect(g: nat, err: bool, resets: nat, a: Alloc, op: Op): Move
    requires g > 0 && Allowed(g, a, op)
  {
    var n := |a.chunks|;
    match op
    case Accept =>
      if err then Move(Ended(a), Vacate(a, a.base, false), Keep, NoMap, err, false)
          else Only(a.(phase := FirstPhase(n)), err)
    case Reject(ok) => Move(Ended(a), Vacate(a, a.base, ok), Keep, NoMap, true, false)
    case Drop => Move(Ended(a), Vacate(a, a.base, false), Keep, NoMap, err, false)
    case Create(ok, h) =>
      if ok then Move(a.(phase := Created(a.phase.k, Some(h))), Stay, New(h), NoMap, err, false)
      else Only(a.(phase := Created(a.phase.k, None)), true)
    case SeeCreate =>
      if err then Move(a.(phase := Undoing), Stay, Leak(LastHandle(a.phase)), NoMap, err, false)
      else
        var next := if a.phase.k + 1 >= n then Mapping(0) else Creating(a.phase.k + 1);
        var own := if a.phase.last.Some? then a.own[a.phase.k := a.phase.last.value] else a.own;
        Only(a.(own := own, phase := next), err)
    case Undo(i, ok) => Move(a.(own := a.own - {i}), Stay, DropHandle(a, i, ok), NoMap, err, false)
    case UndoDone => Only(a.(phase := Returned(false)), err)
    case Map(ok) =>
      var k := a.phase.k;
      if !ok then Only(a.(phase := MapCalled(k)), true)
      else if k < n then
        Move(a.(bound := a.bound[k := a.own[k]], done := a.done + {k}, gone := a.gone - {k}, phase := MapCalled(k)),
             Stay, Keep, Bind(k, a.own[k]), err, false)
      else Move(a.(done := a.done + {k}, phase := MapCalled(k)), Stay, Keep, Touch, err, false)
    case SeeMap =>
      if err && a.phase.k < n then Only(a.(phase := BackPhase(0, a.phase.k)), err)
      else if err then Only(a.(phase := Returned(false)), err)
      else Only(a.(phase := if a.phase.k + 1 >= n + 2 then Returned(true) else Mapping(a.phase.k + 1)), err)
    case Return =>
      if err then Move(a.(own := map[], phase := Discarding), Stay, Leak(a.own.Values), NoMap, err, false)
      else Only(a.(job := Idle, phase := Awake), err)
    case Discard(ok) => Move(Ended(a), Vacate(a, a.base, ok), Keep, NoMap, err || !ok, false)
    case BeginSleep => Only(a.(job := Sleep, phase := UnmapPhase(n, 0, {})), err)
    case Unmap(ok) =>
      var k := UnmapIndex(a);
      var bound := if ok then a.bound - {k} else a.bound;
      var next := if a.phase.Backing? then BackPhase(k + 1, a.phase.end)
                  else UnmapPhase(n, k + 1, if ok then a.phase.left else a.phase.left + {k});
      Move(a.(bound := bound, phase := next), Stay, Keep, if ok then Unbind(k) else NoMap, err, false)
    case Release(i, ok) =>
      Move(a.(own := a.own - {i}, phase := Releasing(a.phase.left, a.phase.failed || !ok)), Stay, DropHandle(a, i, ok),
           NoMap, err, false)
    case Released => Only(a.(phase := Freeing), err || a.phase.failed)
    case FreeForSleep(ok) =>
      if err then Only(a.(phase := Reporting), err)
      else if ok then Move(a.(claim := Given, phase := Unreserved), Give(a.base), Keep, NoMap, err, false)
      else Only(a.(phase := Reporting), true)
    case Rereserve(ok, got) =>
      if err then Only(a.(phase := Reporting), err)
      else if ok then Move(a.(claim := Held, phase := Replaced(got)), Take(got), Keep, NoMap, err, false)
      else Only(a.(phase := Reporting), true)
    case Settle(ok) =>
      if a.phase.got == a.base then Only(a.(phase := Reporting), err)
      else Move(a.(claim := Given, phase := Reporting), Vacate(a, a.phase.got, ok && !err), Keep, NoMap, true, false)
    case ReportSleep => Move(a.(job := Idle, phase := Asleep), Stay, Keep, NoMap, false, err)
    case BeginWake => Only(a.(job := Wake, since := resets, done := {}, gone := {}, phase := FirstPhase(n)), err)
    case ReportWake =>
      if err then Move(a.(own := map[], job := Idle, phase := Asleep), Stay, Leak(a.own.Values), NoMap, false, true)
      else Move(a.(job := Idle, phase := Awake), Stay, Keep, NoMap, false, false)
    case BeginFree => Only(a.(job := Free, phase := if a.phase == Awake then UnmapPhase(n, 0, {}) else Freeing), err)
    case FreeAddress(ok) => Move(Ended(a), Vacate(a, a.base, ok), Keep, NoMap, err || !ok, false)
  }

  /** Whoever else held the range that is freed has lost it. */
  function Strip(s: Sys, x: nat, b: nat): Sys {
    if b in s.reserved && s.reserved[b].holder.Some? && s.reserved[b].holder.value != x
        && s.reserved[b].holder.value in s.allocs then
      var y := s.reserved[b].holder.value;
      s.(allocs := s.allocs[y := s.allocs[y].(claim := Robbed)],
         reserved := s.reserved[b := s.reserved[b].(holder := None)])
    else s
  }

  /** An allocation after others unmapped its chunk i. */
  function Without(a: Alloc, i: nat): Alloc {
    a.(bound := a.bound - {i}, gone := a.gone + {i})
  }

  /** What others had mapped at the address is mapped no more. */
  function Evict(s: Sys, x: nat, addr: nat): Sys {
    if addr in s.maps && s.maps[addr].x != x && s.maps[addr].x in s.allocs then
      var b := s.maps[addr];
      s.(allocs := s.allocs[b.x := Without(s.allocs[b.x], b.i)], maps := s.maps - {addr})
    else s
  }

  function MovePlace(s: Sys, x: nat, size: nat, m: PlaceMove): map<nat, Range> {
    match m
    case Stay => s.reserved
    case Take(b) => s.reserved[b := Range(size, Some(x))]
    case Give(b) => s.reserved - {b}
    case Forget(b) => if b in s.reserved then s.reserved[b := s.reserved[b].(holder := None)] else s.reserved
  }

  function MoveHandle(s: Sys, x: nat, m: HandleMove): map<nat, Option<nat>> {
    match m
    case Keep => s.live
    case New(h) => s.live[h := Some(x)]
    case Destroy(h) => s.live - {h}
    case Leak(hs) => map h | h in s.live :: if h in hs then None else s.live[h]
  }

  function MoveMap(s: Sys, x: nat, chunks: seq<Chunk>, m: MapMove): map<nat, Binding> {
    match m
    case Bind(i, h) => if i < |chunks| then s.maps[chunks[i].addr := Binding(chunks[i].size, h, x, i)] else s.maps
    case Unbind(i) => if i < |chunks| then s.maps - {chunks[i].addr} else s.maps
    case _ => s.maps
  }

  predicate Locks(job: Job) {
    job == Wake || job == Sleep
  }

  /** The move itself, on a range and a chunk that are nobody else's. */
  function DoOwn(s: Sys, x: nat, m: Move): Sys {
    Sys(
      MovePlace(s, x, m.a.size, m.place),
      MoveHandle(s, x, m.handle),
      MoveMap(s, x, m.a.chunks, m.mapping),
      m.err,
      if m.reset then s.resets + 1 else s.resets,
      if Locks(m.a.job) then Some(x) else if s.lock == Some(x) then None else s.lock,
      s.allocs[x := m.a])
  }

  /** What others lose by the move. */
  function Cleared(s: Sys, x: nat, m: Move): Sys {
    if m.place.Give? then Strip(s, x, m.place.b)
    else if m.mapping.Unbind? && m.mapping.i < |m.a.chunks| then Evict(s, x, m.a.chunks[m.mapping.i].addr)
    else s
  }

  function Do(s: Sys, x: nat, m: Move): Sys {
    DoOwn(Cleared(s, x, m), x, m)
  }

  /** What the driver allows as to mappings. */
  predicate MapPossible(s: Sys, chunks: seq<Chunk>, m: MapMove) {
    match m
    case NoMap => true
    case Bind(i, h) => i < |chunks| && Vacant(s, chunks[i])
    case Unbind(i) => i < |chunks| && Mapped(s, chunks[i])
    case Touch => forall i :: 0 <= i < |chunks| ==> chunks[i].addr in s.maps
  }

  /** What the driver and the lock allow. */
  predicate Possible(s: Sys, x: nat, a: Alloc, m: Move) {
    && (m.place.Take? ==> FreeRange(s, m.place.b, a.size))
    && (m.place.Give? ==> Freeable(s, m.place.b, a.size))
    && (m.handle.New? ==> m.handle.h !in s.live)
    && (m.handle.Destroy? ==> m.handle.h in s.live)
    && MapPossible(s, a.chunks, m.mapping)
    && (a.job == Idle ==> s.lock == None)
  }

  /** The chunks lie one behind the other in the range. */
  predicate Planned(base: nat, size: nat, chunks: seq<Chunk>) {
    && (forall i :: 0 <= i < |chunks| ==>
          base <= chunks[i].addr && chunks[i].size > 0 && chunks[i].addr + chunks[i].size <= base + size)
    && forall i, j :: 0 <= i < j < |chunks| ==> chunks[i].addr + chunks[i].size <= chunks[j].addr
  }

  predicate Next(g: nat, s: Sys, s': Sys, act: Action)
    requires g > 0
  {
    match act
    case Fault => s' == s.(err := true)
    case Reserve(x, base, size, chunks, explicit) =>
      && x !in s.allocs && FreeRange(s, base, size) && (explicit ==> base % g == 0) && Planned(base, size, chunks)
      && s' == Do(s, x, Arrival(base, size, chunks, s.resets, s.err))
    case Step(x, op) =>
      && x in s.allocs && Allowed(g, s.allocs[x], op)
      && var m := Effect(g, s.err, s.resets, s.allocs[x], op);
      Possible(s, x, s.allocs[x], m) && s' == Do(s, x, m)
  }

  function Arrival(base: nat, size: nat, chunks: seq<Chunk>, resets: nat, err: bool): Move {
    Move(Alloc(base, size, chunks, map[], map[], {}, {}, Held, resets, Malloc, Reserved), Take(base), Keep, NoMap, err,
         false)
  }

  // --- Invariant -----------------------------------------------------------------------------------------------------

  /** The reservation an allocation is responsible for. */
  function Place(a: Alloc): Option<nat> {
    if a.claim != Held then None else if a.phase.Replaced? then Some(a.phase.got) else Some(a.base)
  }

  function Owned(a: Alloc): set<nat> {
    if a.phase.Created? then a.own.Values + LastHandle(a.phase) else a.own.Values
  }

  predicate Injective(own: map<nat, nat>) {
    forall i, j :: i in own && j in own && i != j ==> own[i] != own[j]
  }

  /** Chunks below n have their handles, and calls below k succeeded. */
  predicate Made(a: Alloc, n: nat) {
    forall i :: 0 <= i < n ==> i in a.own
  }

  predicate Below(a: Alloc, k: nat) {
    forall i :: i in a.own ==> i < k
  }

  predicate DoneBelow(a: Alloc, k: nat) {
    forall j :: j in a.done ==> j < k
  }

  predicate DoneOwned(a: Alloc) {
    forall j :: j in a.done && j < |a.chunks| ==> j in a.own
  }

  predicate Called(a: Alloc, k: nat) {
    forall j :: 0 <= j < k ==> j in a.done
  }

  /** Every call of create_and_map succeeded. */
  predicate AllCalled(a: Alloc) {
    Made(a, |a.chunks|) && Called(a, |a.chunks| + 2)
  }

  /** The chunk's own handle is bound to it. */
  predicate Binds(a: Alloc, i: nat) {
    i in a.own && i in a.bound && a.bound[i] == a.own[i]
  }

  predicate BoundWithin(a: Alloc) {
    forall i :: i in a.bound ==> i < |a.chunks|
  }

  /** The memory is in use, or on the way there. */
  predicate InUse(p: Phase) {
    p.Mapping? || p.MapCalled? || p.Returned? || p == Awake
  }

  /** A chunk that was mapped is mapped unless others have unmapped it. */
  predicate Current(a: Alloc) {
    forall i {:trigger i in a.gone} {:trigger Binds(a, i)} ::
      i in a.done && i in a.own && i < |a.chunks| ==> if i in a.gone then i !in a.bound else Binds(a, i)
  }

  /** Only chunks from k on and those whose unmap failed are still bound. */
  predicate BoundFrom(a: Alloc, k: nat, left: set<nat>) {
    forall i :: i in a.bound ==> i >= k || i in left
  }

  ghost predicate Disjoint(s: Sys) {
    forall b, c :: b in s.reserved && c in s.reserved && b < c ==> b + s.reserved[b].size <= c
  }

  ghost predicate MapsDisjoint(s: Sys) {
    forall b, c :: b in s.maps && c in s.maps && b < c ==> b + s.maps[b].size <= c
  }

  ghost predicate PlacesOk(s: Sys) {
    && (forall x :: x in s.allocs && Place(s.allocs[x]).Some? ==>
          var b := Place(s.allocs[x]).value;
          b in s.reserved && s.reserved[b] == Range(s.allocs[x].size, Some(x)))
    && (forall b :: b in s.reserved && s.reserved[b].holder.Some? ==>
          var x := s.reserved[b].holder.value;
          x in s.allocs && Place(s.allocs[x]) == Some(b))
  }

  ghost predicate HandlesOk(s: Sys) {
    && (forall x, h :: x in s.allocs && h in Owned(s.allocs[x]) ==> h in s.live && s.live[h] == Some(x))
    && (forall h :: h in s.live && s.live[h].Some? ==>
          s.live[h].value in s.allocs && h in Owned(s.allocs[s.live[h].value]))
  }

  /** x's record of chunk i and the device agree. */
  ghost predicate BindingOk(s: Sys, x: nat, i: nat)
    requires x in s.allocs && i in s.allocs[x].bound
  {
    var a := s.allocs[x];
    && i < |a.chunks| && a.chunks[i].addr in s.maps
    && s.maps[a.chunks[i].addr] == Binding(a.chunks[i].size, a.bound[i], x, i)
  }

  /** The map call that a binding names is on record. */
  ghost predicate LabelOk(s: Sys, b: nat)
    requires b in s.maps
  {
    var m := s.maps[b];
    m.x in s.allocs && m.i in s.allocs[m.x].bound && m.i < |s.allocs[m.x].chunks| && s.allocs[m.x].chunks[m.i].addr == b
  }

  ghost predicate MapsOk(s: Sys) {
    && (forall x, i {:trigger BindingOk(s, x, i)} :: x in s.allocs && i in s.allocs[x].bound ==> BindingOk(s, x, i))
    && (forall b {:trigger LabelOk(s, b)} :: b in s.maps ==> LabelOk(s, b))
  }

  /** `clean`: no error was cleared since create_and_map began. */
  predicate PhaseOk(g: nat, err: bool, clean: bool, a: Alloc)
    requires g > 0
  {
    && BoundWithin(a) && Injective(a.own)
    && (a.phase != Reserved && a.phase != Gone ==> a.base % g == 0)
    && (a.job == Malloc ==> a.claim != Given && a.bound.Keys <= a.done)
    && (InUse(a.phase) ==> Current(a))
    && var n := |a.chunks|;
       match a.phase
       case Reserved => a.job == Malloc && a.own == map[] && a.done == {}
       case Creating(k) => Filling(a) && k < n && Below(a, k) && a.done == {} && (clean ==> Made(a, k))
       case Created(k, last) =>
         && Filling(a) && k < n && Below(a, k) && a.done == {} && (clean ==> Made(a, k) && (last == None ==> err))
         && (last.Some? ==> last.value !in a.own.Values)
       case Backing(k, end) => Filling(a) && k < end < n && (clean ==> err)
       case Undoing => Filling(a) && n > 0 && (clean ==> err)
       case Mapping(k) => Filling(a) && k < n + 2 && DoneBelow(a, k) && DoneOwned(a)
           && (clean ==> Made(a, n) && Called(a, k))
       case MapCalled(k) =>
         && Filling(a) && k < n + 2 && DoneBelow(a, k + 1) && DoneOwned(a)
         && (clean ==> Made(a, n) && Called(a, k) && (k in a.done || err))
       case Returned(full) => Filling(a) && (clean ==> if full then AllCalled(a) else err)
       case Discarding => a.job == Malloc && a.own == map[]
       case Awake => a.job == Idle
       case Unmapping(k, left) => Emptying(a) && k < n && BoundFrom(a, k, left)
       case Releasing(left, failed) => Emptying(a) && BoundFrom(a, n, left) && (left != {} ==> failed)
       case Freeing => Emptying(a) && a.own == map[]
       case Unreserved => a.job == Sleep && a.claim == Given && a.own == map[]
       case Replaced(got) => a.job == Sleep && a.claim != Given && a.own == map[]
       case Reporting => a.job == Sleep && a.own == map[] && (a.claim == Given ==> err)
       case Asleep => a.job == Idle && a.own == map[]
       case Gone => a.job == Idle && a.claim == Given && a.own == map[]
  }

  ghost predicate AllocOk(g: nat, s: Sys, x: nat)
    requires g > 0 && x in s.allocs
  {
    var a := s.allocs[x];
    && (Locks(a.job) <==> s.lock == Some(x))
    && a.since <= s.resets && (a.job == Wake ==> a.since == s.resets)
    && Planned(a.base, a.size, a.chunks) && PhaseOk(g, s.err, a.since == s.resets, a)
  }

  ghost predicate Inv(g: nat, s: Sys)
    requires g > 0
  {
    && Disjoint(s) && PlacesOk(s) && HandlesOk(s) && MapsOk(s) && MapsDisjoint(s)
    && (forall x {:trigger AllocOk(g, s, x)} :: x in s.allocs ==> AllocOk(g, s, x))
    && (s.lock.Some? ==> s.lock.value in s.allocs)
  }

  // --- What one step must do to keep it ------------------------------------------------------------------------------

  predicate PlaceFits(before: Option<nat>, after: Option<nat>, m: PlaceMove) {
    match m
    case Stay => after == before
    case Take(b) => before == None && after == Some(b)
    case Give(b) => (before == None || before == Some(b)) && after == None
    case Forget(b) => before == Some(b) && after == None
  }

  predicate HandleFits(before: set<nat>, after: set<nat>, m: HandleMove) {
    match m
    case Keep => after == before
    case New(h) => after == before + {h}
    case Destroy(h) => h in before && after == before - {h}
    case Leak(hs) => hs <= before && after == before - hs
  }

  predicate MapFits(n: nat, before: map<nat, nat>, after: map<nat, nat>, m: MapMove) {
    match m
    case Bind(i, h) => i < n && after == before[i := h]
    case Unbind(i) => i < n && after == before - {i}
    case _ => after == before
  }

  function PlaceIn(s: Sys, x: nat): Option<nat> {
    if x in s.allocs then Place(s.allocs[x]) else None
  }

  function OwnedIn(s: Sys, x: nat): set<nat> {
    if x in s.allocs then Owned(s.allocs[x]) else {}
  }

  function BoundOf(s: Sys, x: nat): map<nat, nat> {
    if x in s.allocs then s.allocs[x].bound else map[]
  }

  /** What is unmapped is nobody else's. */
  predicate OwnBinding(s: Sys, x: nat, chunks: seq<Chunk>, m: MapMove) {
    m.Unbind? && m.i < |chunks| && chunks[m.i].addr in s.maps ==> s.maps[chunks[m.i].addr].x == x
  }

  /** A freed range is nobody else's. */
  predicate OwnRange(s: Sys, x: nat, m: PlaceMove) {
    m.Give? && m.b in s.reserved ==> s.reserved[m.b].holder == None || s.reserved[m.b].holder == Some(x)
  }

  /** A move that keeps the invariant, said about the moving allocation alone. */
  predicate Sound(g: nat, s: Sys, x: nat, m: Move)
    requires g > 0
  {
    && (x in s.allocs ==>
          m.a.base == s.allocs[x].base && m.a.size == s.allocs[x].size && m.a.chunks == s.allocs[x].chunks)
    && MapFits(|m.a.chunks|, BoundOf(s, x), m.a.bound, m.mapping)
    && PlaceFits(PlaceIn(s, x), Place(m.a), m.place) && HandleFits(OwnedIn(s, x), Owned(m.a), m.handle)
    && (Locks(m.a.job) ==> s.lock == None || s.lock == Some(x))
    && (m.reset ==> s.lock == Some(x) && m.a.job == Idle) && (s.err && !m.err ==> m.reset)
    && var resets := if m.reset then s.resets + 1 else s.resets;
    && m.a.since <= resets && (m.a.job == Wake ==> m.a.since == resets)
    && Planned(m.a.base, m.a.size, m.a.chunks) && PhaseOk(g, m.err, m.a.since == resets, m.a)
  }

  lemma DisjointKept(s: Sys, x: nat, m: Move)
    requires Disjoint(s) && (m.place.Take? ==> FreeRange(s, m.place.b, m.a.size))
    ensures Disjoint(DoOwn(s, x, m))
  {
  }

  lemma PlacesKept(s: Sys, x: nat, m: Move)
    requires PlacesOk(s) && PlaceFits(PlaceIn(s, x), Place(m.a), m.place) && OwnRange(s, x, m.place)
    requires x in s.allocs ==> m.a.size == s.allocs[x].size
    requires m.place.Take? ==> m.place.b !in s.reserved
    ensures PlacesOk(DoOwn(s, x, m))
  {
  }

  lemma HandlesKept(s: Sys, x: nat, m: Move)
    requires HandlesOk(s) && HandleFits(OwnedIn(s, x), Owned(m.a), m.handle)
    requires m.handle.New? ==> m.handle.h !in s.live
    ensures HandlesOk(DoOwn(s, x, m))
  {
    var s' := DoOwn(s, x, m);
    var before, after := OwnedIn(s, x), Owned(m.a);
    assert forall h :: h in before ==> h in s.live && s.live[h] == Some(x);
    forall y, h | y in s'.allocs && h in Owned(s'.allocs[y])
      ensures h in s'.live && s'.live[h] == Some(y)
    {
      if y == x {
        assert h in after;
      } else {
        assert s.live[h] == Some(y) && h !in before;
      }
    }
    forall h | h in s'.live && s'.live[h].Some?
      ensures s'.live[h].value in s'.allocs && h in Owned(s'.allocs[s'.live[h].value])
    {
      if h in s.live && s.live[h] != Some(x) {
        assert s'.live[h] == s.live[h];
      }
    }
  }

  lemma MapsDisjointKept(s: Sys, x: nat, m: Move)
    requires MapsDisjoint(s) && (m.mapping.Bind? ==> m.mapping.i < |m.a.chunks| && Vacant(s, m.a.chunks[m.mapping.i]))
    ensures MapsDisjoint(DoOwn(s, x, m))
  {
  }

  lemma BindingKept(s: Sys, x: nat, m: Move, y: nat, i: nat)
    requires MapsOk(s) && MapFits(|m.a.chunks|, BoundOf(s, x), m.a.bound, m.mapping)
        && OwnBinding(s, x, m.a.chunks, m.mapping)
    requires x in s.allocs ==> m.a.chunks == s.allocs[x].chunks
    requires Planned(m.a.base, m.a.size, m.a.chunks)
    requires m.mapping.Bind? ==> m.a.chunks[m.mapping.i].addr !in s.maps
    requires y in DoOwn(s, x, m).allocs && i in DoOwn(s, x, m).allocs[y].bound
    ensures BindingOk(DoOwn(s, x, m), y, i)
  {
    if y != x || !(m.mapping.Bind? && i == m.mapping.i) {
      assert BindingOk(s, y, i);
    }
  }

  lemma LabelKept(s: Sys, x: nat, m: Move, b: nat)
    requires MapsOk(s) && MapFits(|m.a.chunks|, BoundOf(s, x), m.a.bound, m.mapping)
    requires x in s.allocs ==> m.a.chunks == s.allocs[x].chunks
    requires b in DoOwn(s, x, m).maps
    ensures LabelOk(DoOwn(s, x, m), b)
  {
    if b in s.maps {
      assert LabelOk(s, b);
    }
  }

  lemma MapsKept(s: Sys, x: nat, m: Move)
    requires MapsOk(s) && MapFits(|m.a.chunks|, BoundOf(s, x), m.a.bound, m.mapping)
        && OwnBinding(s, x, m.a.chunks, m.mapping)
    requires x in s.allocs ==> m.a.chunks == s.allocs[x].chunks
    requires Planned(m.a.base, m.a.size, m.a.chunks)
    requires m.mapping.Bind? ==> m.a.chunks[m.mapping.i].addr !in s.maps
    ensures MapsOk(DoOwn(s, x, m))
  {
    var s' := DoOwn(s, x, m);
    forall y, i | y in s'.allocs && i in s'.allocs[y].bound
      ensures BindingOk(s', y, i)
    {
      BindingKept(s, x, m, y, i);
    }
    forall b | b in s'.maps
      ensures LabelOk(s', b)
    {
      LabelKept(s, x, m, b);
    }
  }

  lemma OthersKept(g: nat, s: Sys, x: nat, m: Move, y: nat)
    requires g > 0 && Inv(g, s) && Sound(g, s, x, m) && y in s.allocs && y != x
    ensures AllocOk(g, DoOwn(s, x, m), y)
  {
    assert AllocOk(g, s, y);
  }

  lemma SoundKeeps(g: nat, s: Sys, x: nat, m: Move)
    requires g > 0 && Inv(g, s) && Sound(g, s, x, m) && OwnRange(s, x, m.place)
    requires m.place.Take? ==> FreeRange(s, m.place.b, m.a.size)
    requires m.handle.New? ==> m.handle.h !in s.live
    requires m.mapping.Bind? ==> m.mapping.i < |m.a.chunks| && Vacant(s, m.a.chunks[m.mapping.i])
    requires OwnBinding(s, x, m.a.chunks, m.mapping)
    ensures Inv(g, DoOwn(s, x, m))
  {
    DisjointKept(s, x, m);
    MapsDisjointKept(s, x, m);
    MapsKept(s, x, m);
    PlacesKept(s, x, m);
    HandlesKept(s, x, m);
    forall y | y in DoOwn(s, x, m).allocs
      ensures AllocOk(g, DoOwn(s, x, m), y)
    {
      if y != x {
        OthersKept(g, s, x, m, y);
      }
    }
  }

  // --- Taking a range from somebody else -----------------------------------------------------------------------------

  lemma StripPlaces(s: Sys, x: nat, b: nat)
    requires PlacesOk(s) && Disjoint(s)
    ensures PlacesOk(Strip(s, x, b)) && OwnRange(Strip(s, x, b), x, Give(b)) && Disjoint(Strip(s, x, b))
  {
  }

  lemma StripHandles(s: Sys, x: nat, b: nat)
    requires HandlesOk(s)
    ensures HandlesOk(Strip(s, x, b))
  {
    var t := Strip(s, x, b);
    assert t.live == s.live && t.allocs.Keys == s.allocs.Keys;
    assert forall y :: y in s.allocs ==> Owned(t.allocs[y]) == Owned(s.allocs[y]);
  }

  lemma StripAlloc(g: nat, s: Sys, x: nat, b: nat, y: nat)
    requires g > 0 && PlacesOk(s) && y in s.allocs && AllocOk(g, s, y)
    ensures y in Strip(s, x, b).allocs && AllocOk(g, Strip(s, x, b), y)
  {
  }

  lemma SameBindings(s: Sys, t: Sys)
    requires MapsOk(s) && MapsDisjoint(s) && t.maps == s.maps && t.allocs.Keys == s.allocs.Keys
    requires forall y :: y in s.allocs ==>
        t.allocs[y].bound == s.allocs[y].bound && t.allocs[y].chunks == s.allocs[y].chunks
    ensures MapsOk(t) && MapsDisjoint(t)
  {
    forall y, i | y in t.allocs && i in t.allocs[y].bound
      ensures BindingOk(t, y, i)
    {
      assert BindingOk(s, y, i);
    }
    forall b | b in t.maps
      ensures LabelOk(t, b)
    {
      assert LabelOk(s, b);
    }
  }

  lemma StripMaps(s: Sys, x: nat, b: nat)
    requires MapsOk(s) && MapsDisjoint(s)
    ensures MapsOk(Strip(s, x, b)) && MapsDisjoint(Strip(s, x, b))
  {
    SameBindings(s, Strip(s, x, b));
  }

  /** The victim's other facts, and everybody else's, stay as they were. */
  lemma StripKeeps(g: nat, s: Sys, x: nat, b: nat)
    requires g > 0 && Inv(g, s)
    ensures Inv(g, Strip(s, x, b)) && OwnRange(Strip(s, x, b), x, Give(b))
  {
    StripPlaces(s, x, b);
    StripHandles(s, x, b);
    StripMaps(s, x, b);
    var t := Strip(s, x, b);
    forall y | y in t.allocs
      ensures AllocOk(g, t, y)
    {
      StripAlloc(g, s, x, b, y);
    }
  }

  // --- Unmapping what somebody else has mapped -----------------------------------------------------------------------

  /** Invariants that look only at claims, phases and handles carry over to a system that agrees on them. */
  lemma SamePlaces(s: Sys, t: Sys)
    requires t.live == s.live && t.reserved == s.reserved && t.allocs.Keys == s.allocs.Keys
    requires forall y :: y in s.allocs ==>
      Owned(t.allocs[y]) == Owned(s.allocs[y]) && Place(t.allocs[y]) == Place(s.allocs[y])
          && t.allocs[y].size == s.allocs[y].size
    requires PlacesOk(s) && HandlesOk(s) && Disjoint(s)
    ensures PlacesOk(t) && HandlesOk(t) && Disjoint(t)
  {
  }

  lemma EvictPlaces(s: Sys, x: nat, addr: nat)
    requires PlacesOk(s) && HandlesOk(s) && Disjoint(s)
    ensures PlacesOk(Evict(s, x, addr)) && HandlesOk(Evict(s, x, addr)) && Disjoint(Evict(s, x, addr))
  {
    var t := Evict(s, x, addr);
    EvictAside(s, x, addr);
    forall y | y in s.allocs
      ensures Owned(t.allocs[y]) == Owned(s.allocs[y]) && Place(t.allocs[y]) == Place(s.allocs[y])
          && t.allocs[y].size == s.allocs[y].size
    {
      EvictShape(s, x, addr, y);
    }
    SamePlaces(s, t);
  }

  /** The victim is somebody else, and only its record of the chunk changes. */
  lemma EvictShape(s: Sys, x: nat, addr: nat, y: nat)
    requires y in s.allocs
    ensures var t := Evict(s, x, addr);
            && t.allocs.Keys == s.allocs.Keys && t.maps.Keys <= s.maps.Keys
               && (forall b :: b in t.maps ==> t.maps[b] == s.maps[b])
            && (if addr in s.maps && s.maps[addr].x == y && y != x
                then t.allocs[y] == Without(s.allocs[y], s.maps[addr].i) && addr !in t.maps
                else t.allocs[y] == s.allocs[y])
  {
  }

  lemma EvictedOthers(s: Sys, x: nat, addr: nat, y: nat, i: nat)
    requires MapsOk(s) && y in s.allocs && Planned(s.allocs[y].base, s.allocs[y].size, s.allocs[y].chunks)
    requires y in Evict(s, x, addr).allocs && i in Evict(s, x, addr).allocs[y].bound
    ensures BindingOk(Evict(s, x, addr), y, i)
  {
    EvictShape(s, x, addr, y);
    assert BindingOk(s, y, i);
  }

  lemma EvictedLabels(s: Sys, x: nat, addr: nat, b: nat)
    requires MapsOk(s) && b in Evict(s, x, addr).maps
    ensures LabelOk(Evict(s, x, addr), b)
  {
    assert LabelOk(s, b);
    EvictShape(s, x, addr, s.maps[b].x);
    if addr in s.maps {
      assert LabelOk(s, addr);
    }
  }

  lemma EvictMaps(s: Sys, x: nat, addr: nat)
    requires MapsOk(s) && MapsDisjoint(s)
    requires forall y :: y in s.allocs ==> Planned(s.allocs[y].base, s.allocs[y].size, s.allocs[y].chunks)
    ensures MapsOk(Evict(s, x, addr)) && MapsDisjoint(Evict(s, x, addr))
    ensures addr in Evict(s, x, addr).maps ==> Evict(s, x, addr).maps[addr].x == x
  {
    var t := Evict(s, x, addr);
    if addr in s.maps {
      assert LabelOk(s, addr);
    }
    forall y, i | y in t.allocs && i in t.allocs[y].bound
      ensures BindingOk(t, y, i)
    {
      EvictedOthers(s, x, addr, y, i);
    }
    forall b | b in t.maps
      ensures LabelOk(t, b)
    {
      EvictedLabels(s, x, addr, b);
    }
  }

  lemma WithoutPhase(g: nat, err: bool, clean: bool, a: Alloc, i: nat)
    requires g > 0 && PhaseOk(g, err, clean, a)
    ensures PhaseOk(g, err, clean, Without(a, i))
  {
    var a' := Without(a, i);
    if InUse(a.phase) {
      forall j | j in a'.done && j in a'.own && j < |a'.chunks|
        ensures if j in a'.gone then j !in a'.bound else Binds(a', j)
      {
        assert if j in a.gone then j !in a.bound else Binds(a, j);
      }
    }
  }

  lemma EvictAlloc(g: nat, s: Sys, x: nat, addr: nat, y: nat)
    requires g > 0 && y in s.allocs && AllocOk(g, s, y)
    ensures y in Evict(s, x, addr).allocs && AllocOk(g, Evict(s, x, addr), y)
  {
    EvictShape(s, x, addr, y);
    EvictAside(s, x, addr);
    if addr in s.maps {
      WithoutPhase(g, s.err, s.allocs[y].since == s.resets, s.allocs[y], s.maps[addr].i);
    }
  }

  lemma EvictKeeps(g: nat, s: Sys, x: nat, addr: nat)
    requires g > 0 && Inv(g, s)
    ensures Inv(g, Evict(s, x, addr))
    ensures addr in Evict(s, x, addr).maps ==> Evict(s, x, addr).maps[addr].x == x
  {
    EvictPlaces(s, x, addr);
    assert forall y :: y in s.allocs ==> AllocOk(g, s, y);
    EvictMaps(s, x, addr);
    EvictAside(s, x, addr);
    var t := Evict(s, x, addr);
    forall y | y in t.allocs
      ensures AllocOk(g, t, y)
    {
      EvictAlloc(g, s, x, addr, y);
    }
  }

  // --- Every step is sound -------------------------------------------------------------------------------------------

  lemma MapPhase(g: nat, err: bool, resets: nat, a: Alloc, op: Op)
    requires g > 0 && Allowed(g, a, op) && op.Map? && PhaseOk(g, err, a.since == resets, a)
    ensures var m := Effect(g, err, resets, a, op); PhaseOk(g, m.err, m.a.since == resets, m.a)
  {
    var a' := Effect(g, err, resets, a, op).a;
    forall j | j in a'.done && j in a'.own && j < |a'.chunks|
      ensures if j in a'.gone then j !in a'.bound else Binds(a', j)
    {
      assert j != a.phase.k ==> if j in a.gone then j !in a.bound else Binds(a, j);
    }
  }

  lemma CreatePhase(g: nat, err: bool, resets: nat, a: Alloc, op: Op)
    requires g > 0 && Allowed(g, a, op) && (op.Create? || op.SeeCreate?) && PhaseOk(g, err, a.since == resets, a)
    requires a.since <= resets && (op.Create? && op.ok ==> op.h !in a.own.Values)
    ensures var m := Effect(g, err, resets, a, op);
            PhaseOk(g, m.err, m.a.since == if m.reset then resets + 1 else resets, m.a)
  {
  }

  lemma FillingPhase(g: nat, err: bool, resets: nat, a: Alloc, op: Op)
    requires g > 0 && Allowed(g, a, op) && Filling(a) && !op.Map? && !op.Create? && !op.SeeCreate?
    requires PhaseOk(g, err, a.since == resets, a) && a.since <= resets
    ensures var m := Effect(g, err, resets, a, op);
            PhaseOk(g, m.err, m.a.since == if m.reset then resets + 1 else resets, m.a)
  {
    var a' := Effect(g, err, resets, a, op).a;
    if InUse(a'.phase) && InUse(a.phase) {
      forall j | j in a'.done && j in a'.own && j < |a'.chunks|
        ensures if j in a'.gone then j !in a'.bound else Binds(a', j)
      {
        assert if j in a.gone then j !in a.bound else Binds(a, j);
      }
    }
  }

  lemma EmptyingPhase(g: nat, err: bool, resets: nat, a: Alloc, op: Op)
    requires g > 0 && Allowed(g, a, op) && (op.Unmap? || op.Release? || op.Released?) && Emptying(a)
    requires PhaseOk(g, err, a.since == resets, a) && a.since <= resets
    ensures var m := Effect(g, err, resets, a, op);
            PhaseOk(g, m.err, m.a.since == if m.reset then resets + 1 else resets, m.a)
  {
  }

  lemma OtherPhase(g: nat, err: bool, resets: nat, a: Alloc, op: Op)
    requires g > 0 && Allowed(g, a, op) && !Filling(a) && !op.Unmap? && !op.Release? && !op.Released?
    requires PhaseOk(g, err, a.since == resets, a) && a.since <= resets
    ensures var m := Effect(g, err, resets, a, op);
            PhaseOk(g, m.err, m.a.since == if m.reset then resets + 1 else resets, m.a)
  {
  }

  lemma EffectPlace(g: nat, err: bool, resets: nat, a: Alloc, op: Op)
    requires g > 0 && Allowed(g, a, op) && (a.phase == Unreserved ==> a.claim == Given)
    ensures PlaceFits(Place(a), Place(Effect(g, err, resets, a, op).a), Effect(g, err, resets, a, op).place)
  {
  }

  lemma WithoutOne(own: map<nat, nat>, i: nat)
    requires Injective(own) && i in own
    ensures (own - {i}).Values == own.Values - {own[i]} && Injective(own - {i})
  {
    var rest := own - {i};
    forall v
      ensures v in rest.Values <==> v in own.Values && v != own[i]
    {
      if v in own.Values && v != own[i] {
        var j :| j in own && own[j] == v;
        assert j in rest && rest[j] == v;
      }
      if v in rest.Values {
        var j :| j in rest && rest[j] == v;
        assert own[j] == v;
      }
    }
  }

  lemma WithOne(own: map<nat, nat>, k: nat, h: nat)
    requires k !in own
    ensures own[k := h].Values == own.Values + {h}
  {
    var more := own[k := h];
    assert more[k] == h;
    forall v | v in own.Values
      ensures v in more.Values
    {
      var j :| j in own && own[j] == v;
      assert more[j] == v;
    }
  }

  lemma NoHandles()
    ensures var none: map<nat, nat> := map[]; none.Values == {}
  {
  }

  lemma EffectMap(g: nat, err: bool, resets: nat, a: Alloc, op: Op)
    requires g > 0 && Allowed(g, a, op) && (a.phase.Unmapping? || a.phase.Backing? ==> a.phase.k < |a.chunks|)
    ensures MapFits(|a.chunks|, a.bound, Effect(g, err, resets, a, op).a.bound, Effect(g, err, resets, a, op).mapping)
  {
  }

  lemma EffectHandle(g: nat, err: bool, resets: nat, a: Alloc, op: Op)
    requires g > 0 && Allowed(g, a, op) && Injective(a.own)
    requires a.phase.Created? ==> a.phase.k !in a.own && (a.phase.last.Some? ==> a.phase.last.value !in a.own.Values)
    requires a.phase == Reserved || a.phase == Discarding || a.phase == Freeing ==> a.own == map[]
    ensures HandleFits(Owned(a), Owned(Effect(g, err, resets, a, op).a), Effect(g, err, resets, a, op).handle)
  {
    NoHandles();
    match op
    case Undo(i, ok) => WithoutOne(a.own, i);
    case Release(i, ok) => WithoutOne(a.own, i);
    case SeeCreate =>
      if a.phase.last.Some? {
        WithOne(a.own, a.phase.k, a.phase.last.value);
      }
    case _ =>
  }

  /** The base, size and chunk count never change; the error code is cleared only by a report. */
  lemma EffectError(g: nat, err: bool, resets: nat, a: Alloc, op: Op)
    requires g > 0 && Allowed(g, a, op) && a.since <= resets && (a.job == Wake ==> a.since == resets)
    ensures var m := Effect(g, err, resets, a, op);
            && m.a.base == a.base && m.a.size == a.size && m.a.chunks == a.chunks
            && (m.reset ==> Locks(a.job) && m.a.job == Idle)
            && (err && !m.err ==> m.reset)
            && (Locks(m.a.job) ==> a.job == Idle || a.job == m.a.job)
            && m.a.since <= resets && (m.a.job == Wake ==> m.a.since == resets)
  {
  }

  lemma EffectPhase(g: nat, err: bool, resets: nat, a: Alloc, op: Op)
    requires g > 0 && Allowed(g, a, op) && PhaseOk(g, err, a.since == resets, a)
    requires a.since <= resets && (op.Create? && op.ok ==> op.h !in a.own.Values)
    ensures var m := Effect(g, err, resets, a, op);
            PhaseOk(g, m.err, m.a.since == if m.reset then resets + 1 else resets, m.a)
  {
    if op.Map? {
      MapPhase(g, err, resets, a, op);
    } else if op.Create? || op.SeeCreate? {
      CreatePhase(g, err, resets, a, op);
    } else if Emptying(a) && (op.Unmap? || op.Release? || op.Released?) {
      EmptyingPhase(g, err, resets, a, op);
    } else if Filling(a) {
      FillingPhase(g, err, resets, a, op);
    } else {
      OtherPhase(g, err, resets, a, op);
    }
  }

  /** What a move does to its own allocation, whatever the system. */
  predicate Steady(g: nat, err: bool, resets: nat, a: Alloc, m: Move)
    requires g > 0
  {
    && m.a.base == a.base && m.a.size == a.size && m.a.chunks == a.chunks
    && PlaceFits(Place(a), Place(m.a), m.place) && HandleFits(Owned(a), Owned(m.a), m.handle)
    && MapFits(|a.chunks|, a.bound, m.a.bound, m.mapping) && (m.place.Stay? || m.mapping == NoMap)
    && (m.reset ==> Locks(a.job) && m.a.job == Idle) && (err && !m.err ==> m.reset)
    && (Locks(m.a.job) ==> a.job == Idle || a.job == m.a.job)
    && m.a.since <= resets && (m.a.job == Wake ==> m.a.since == resets)
    && PhaseOk(g, m.err, m.a.since == if m.reset then resets + 1 else resets, m.a)
  }

  lemma EffectSteady(g: nat, err: bool, resets: nat, a: Alloc, op: Op)
    requires g > 0 && Allowed(g, a, op) && PhaseOk(g, err, a.since == resets, a)
    requires a.since <= resets && (a.job == Wake ==> a.since == resets)
        && (op.Create? && op.ok ==> op.h !in a.own.Values)
    ensures Steady(g, err, resets, a, Effect(g, err, resets, a, op))
  {
    EffectPhase(g, err, resets, a, op);
    EffectPlace(g, err, resets, a, op);
    EffectHandle(g, err, resets, a, op);
    EffectMap(g, err, resets, a, op);
    EffectError(g, err, resets, a, op);
    EffectAims(g, err, resets, a, op);
  }

  lemma SteadySound(g: nat, s: Sys, x: nat, m: Move)
    requires g > 0 && x in s.allocs && AllocOk(g, s, x) && Steady(g, s.err, s.resets, s.allocs[x], m)
    requires s.allocs[x].job == Idle ==> s.lock == None
    ensures Sound(g, s, x, m)
  {
  }

  lemma FaultKeeps(g: nat, s: Sys)
    requires g > 0 && Inv(g, s)
    ensures Inv(g, s.(err := true))
  {
    var s' := s.(err := true);
    SameMaps(s, s');
    forall x | x in s'.allocs
      ensures AllocOk(g, s', x)
    {
      FaultSeen(g, s, x);
    }
  }

  lemma SameMaps(s: Sys, s': Sys)
    requires s'.reserved == s.reserved && s'.live == s.live && s'.maps == s.maps && s'.allocs == s.allocs
    requires Disjoint(s) && PlacesOk(s) && HandlesOk(s) && MapsOk(s) && MapsDisjoint(s)
    ensures Disjoint(s') && PlacesOk(s') && HandlesOk(s') && MapsOk(s') && MapsDisjoint(s')
  {
    SameBindings(s, s');
  }

  lemma FaultSeen(g: nat, s: Sys, x: nat)
    requires g > 0 && x in s.allocs && AllocOk(g, s, x)
    ensures AllocOk(g, s.(err := true), x)
  {
  }

  lemma ArrivalKeeps(g: nat, s: Sys, x: nat, base: nat, size: nat, chunks: seq<Chunk>)
    requires g > 0 && Inv(g, s) && x !in s.allocs && FreeRange(s, base, size) && Planned(base, size, chunks)
    ensures Inv(g, Do(s, x, Arrival(base, size, chunks, s.resets, s.err)))
  {
    NoHandles();
    SoundKeeps(g, s, x, Arrival(base, size, chunks, s.resets, s.err));
  }

  lemma EvictAside(s: Sys, x: nat, addr: nat)
    ensures var t := Evict(s, x, addr);
            && t.allocs.Keys == s.allocs.Keys && (x in s.allocs ==> t.allocs[x] == s.allocs[x])
            && t.live == s.live && t.reserved == s.reserved && t.err == s.err && t.resets == s.resets
               && t.lock == s.lock
  {
  }

  lemma EffectAims(g: nat, err: bool, resets: nat, a: Alloc, op: Op)
    requires g > 0 && Allowed(g, a, op)
    ensures var m := Effect(g, err, resets, a, op);
            m.a.chunks == a.chunks && m.a.size == a.size && (m.place.Stay? || m.mapping == NoMap)
  {
  }

  /** What others lose leaves the moving allocation alone. */
  lemma ClearedAside(s: Sys, x: nat, m: Move)
    ensures var t := Cleared(s, x, m);
            && t.allocs.Keys == s.allocs.Keys && (x in s.allocs ==> t.allocs[x] == s.allocs[x])
            && t.live == s.live && t.err == s.err && t.resets == s.resets && t.lock == s.lock
            && (!m.place.Give? ==> t.reserved == s.reserved)
            && (m.place.Give? || !m.mapping.Unbind? ==> t.maps == s.maps)
  {
  }

  lemma ClearedKeeps(g: nat, s: Sys, x: nat, m: Move)
    requires g > 0 && Inv(g, s) && (m.place.Stay? || m.mapping == NoMap)
    ensures Inv(g, Cleared(s, x, m)) && OwnRange(Cleared(s, x, m), x, m.place)
    ensures OwnBinding(Cleared(s, x, m), x, m.a.chunks, m.mapping)
  {
    if m.place.Give? {
      StripKeeps(g, s, x, m.place.b);
    } else if m.mapping.Unbind? && m.mapping.i < |m.a.chunks| {
      EvictKeeps(g, s, x, m.a.chunks[m.mapping.i].addr);
    }
  }

  lemma MoveKeeps(g: nat, s: Sys, x: nat, m: Move)
    requires g > 0 && Inv(g, s) && x in s.allocs && Steady(g, s.err, s.resets, s.allocs[x], m)
        && Possible(s, x, s.allocs[x], m)
    ensures Inv(g, Do(s, x, m))
  {
    var t := Cleared(s, x, m);
    ClearedKeeps(g, s, x, m);
    ClearedAside(s, x, m);
    assert AllocOk(g, t, x);
    SteadySound(g, t, x, m);
    SoundKeeps(g, t, x, m);
  }

  lemma StepKeeps(g: nat, s: Sys, x: nat, op: Op)
    requires g > 0 && Inv(g, s) && x in s.allocs && Allowed(g, s.allocs[x], op)
    requires Possible(s, x, s.allocs[x], Effect(g, s.err, s.resets, s.allocs[x], op))
    ensures Inv(g, Do(s, x, Effect(g, s.err, s.resets, s.allocs[x], op)))
  {
    assert AllocOk(g, s, x);
    OwnedLive(s, x);
    EffectSteady(g, s.err, s.resets, s.allocs[x], op);
    MoveKeeps(g, s, x, Effect(g, s.err, s.resets, s.allocs[x], op));
  }

  lemma OwnedLive(s: Sys, x: nat)
    requires HandlesOk(s) && x in s.allocs
    ensures forall h :: h in s.allocs[x].own.Values ==> h in s.live
  {
    assert forall h :: h in s.allocs[x].own.Values ==> h in Owned(s.allocs[x]);
  }

  /** Every step of every thread keeps the invariant, whatever the others do. */
  lemma NextInv(g: nat, s: Sys, s': Sys, act: Action)
    requires g > 0 && Inv(g, s) && Next(g, s, s', act)
    ensures Inv(g, s')
  {
    match act
    case Fault => FaultKeeps(g, s);
    case Reserve(x, base, size, chunks, explicit) => ArrivalKeeps(g, s, x, base, size, chunks);
    case Step(x, op) => StepKeeps(g, s, x, op);
  }
}
