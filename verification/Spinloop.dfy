/**
 Waiting for a condition on a buffer with the monitor hardware: poll, arm, poll again, wait. Other threads store into
 the buffer at any time; each step below is one action of the waiter, one store, or the passing of the deadline. The
 loop need not end, so it is a step system rather than a method.
 */
module Spinloop {
  import opened Arith

  /** The buffer [base, base + len), the size of a monitored line, and whether a timeout is set and the hardware is
      used. */
  datatype Setup = Setup(base: nat, len: nat, line: nat, timeout: bool, monitorx: bool)

  datatype Outcome = Found | TimedOut | Failed

  datatype Pc = Poll | Check | Arm | Recheck | Wait | Pause | Out(outcome: Outcome)

  /** `cond` is what the callback would answer. `late`: the deadline has passed; `lateIters`: iterations begun since. */
  datatype State = State(pc: Pc, cond: bool, armed: bool, triggered: bool, iteration: nat, late: bool, lateIters: nat)

  datatype Action =
    | Store(addr: nat, cond: bool)   // a store into the buffer, after which the callback would answer `cond`
    | Deadline
    | Waiter(fails: bool)            // the waiter's next action; the callback or the clock may fail
    | Wake                           // mwaitx returns

  const WORD := 0x1_0000_0000

  predicate Usable(c: Setup) {
    c.line > 0 && 0 < c.len <= c.line
  }

  /** The store is in the line the monitor watches. */
  predicate Watched(c: Setup, addr: nat)
    requires c.line > 0
  {
    addr / c.line == c.base / c.line
  }

  predicate InBuffer(c: Setup, addr: nat) {
    c.base <= addr < c.base + c.len
  }

  predicate Init(s: State) {
    s.pc == Poll && !s.armed && !s.triggered && s.iteration == 0 && !s.late && s.lateIters == 0
  }

  function WaiterStep(c: Setup, s: State, fails: bool): State {
    match s.pc
    case Poll =>
      var s' := s.(lateIters := if s.late then s.lateIters + 1 else 0);
      if fails then s'.(pc := Out(Failed)) else if s.cond then s'.(pc := Out(Found)) else s'.(pc := Check)
    case Check =>
      if c.timeout && s.iteration % 16 == 0 && fails then s.(pc := Out(Failed))
      else if c.timeout && s.iteration % 16 == 0 && s.late then s.(pc := Out(TimedOut))
      else s.(iteration := (s.iteration + 1) % WORD, pc := if c.monitorx then Arm else Pause)
    case Arm => s.(armed := true, triggered := false, pc := Recheck)
    case Recheck => if fails then s.(pc := Out(Failed)) else if s.cond then s.(pc := Out(Found)) else s.(pc := Wait)
    case Wait => s
    case Pause => s.(pc := Poll)
    case Out(o) => s
  }

  ghost predicate Next(c: Setup, s: State, s': State, a: Action)
    requires c.line > 0
  {
    match a
    case Store(addr, cond) =>
      InBuffer(c, addr) && s' == s.(cond := cond, triggered := s.triggered || (s.armed && Watched(c, addr)))
    case Deadline => !s.late && s' == s.(late := true)
    case Waiter(fails) => !s.pc.Wait? && s' == WaiterStep(c, s, fails)
    case Wake => s.pc == Wait && s' == s.(pc := Poll, armed := false)
  }

  ghost predicate Run(c: Setup, ss: seq<State>, acts: seq<Action>)
    requires c.line > 0
  {
    && |ss| == |acts| + 1 && Init(ss[0])
    && forall i :: 0 <= i < |acts| ==> Next(c, ss[i], ss[i + 1], acts[i])
  }

  // --- No lost wake-up -----------------------------------------------------------------------------------------------

  /** Waiting although the condition holds, with nothing to wake the processor. */
  predicate Lost(s: State) {
    s.pc == Wait && s.cond && !s.triggered
  }

  /** The buffer lies within one monitored line. */
  predicate OneLine(c: Setup)
    requires c.line > 0
  {
    c.base % c.line + c.len <= c.line
  }

  lemma LineOf(c: Setup, addr: nat)
    requires c.line > 0 && OneLine(c) && InBuffer(c, addr)
    ensures Watched(c, addr)
  {
    var q, r := c.base / c.line, c.base % c.line;
    assert c.base == q * c.line + r;
    assert addr == q * c.line + (r + addr - c.base);
    assert (q + 1) * c.line == q * c.line + c.line;
    DivUnique(addr, c.line, q);
  }

  predicate WaitOk(s: State) {
    && (s.pc == Recheck || s.pc == Wait ==> s.armed)
    && (s.pc == Wait && s.cond ==> s.triggered)
  }

  lemma {:induction false} WaitInv(c: Setup, ss: seq<State>, acts: seq<Action>, i: nat)
    requires Usable(c) && OneLine(c) && Run(c, ss, acts) && i <= |acts|
    ensures WaitOk(ss[i])
  {
    if i > 0 {
      WaitInv(c, ss, acts, i - 1);
      assert Next(c, ss[i - 1], ss[i], acts[i - 1]);
      if acts[i - 1].Store? {
        LineOf(c, acts[i - 1].addr);
      }
    }
  }

  /** A run that loses a wake-up: the store after the second poll falls into the next line. */
  lemma LosingRun(c: Setup) returns (ss: seq<State>, acts: seq<Action>)
    requires Usable(c) && !OneLine(c) && c.monitorx
    ensures Run(c, ss, acts) && Lost(ss[|acts|])
  {
    var addr := c.base / c.line * c.line + c.line;
    assert InBuffer(c, addr) && !Watched(c, addr) by {
      var q := c.base / c.line;
      assert c.base == q * c.line + c.base % c.line;
      assert (q + 1) * c.line == addr && (q + 2) * c.line == addr + c.line;
      DivUnique(addr, c.line, q + 1);
    }
    var s0 := State(Poll, false, false, false, 0, false, 0);
    var s1 := s0.(pc := Check);
    var s2 := s1.(pc := Arm, iteration := 1);
    var s3 := s2.(pc := Recheck, armed := true);
    var s4 := s3.(pc := Wait);
    var s5 := s4.(cond := true);
    ss := [s0, s1, s2, s3, s4, s5];
    acts := [Waiter(false), Waiter(false), Waiter(false), Waiter(false), Store(addr, true)];
  }

  /** No run ever waits with the condition true and the monitor silent, exactly if the buffer lies within one line. The
      length check of the code alone does not give this. */
  lemma NoLostWakeupIff(c: Setup)
    requires Usable(c) && c.monitorx
    ensures OneLine(c) <==> forall ss, acts :: Run(c, ss, acts) ==> !Lost(ss[|acts|])
  {
    if OneLine(c) {
      forall ss, acts | Run(c, ss, acts)
        ensures !Lost(ss[|acts|])
      {
        WaitInv(c, ss, acts, |acts|);
      }
    } else {
      var ss, acts := LosingRun(c);
    }
  }

  // --- Timeout -------------------------------------------------------------------------------------------------------

  /** Iterations until the clock is looked at next. */
  function UntilCheck(iteration: nat): nat {
    (16 - iteration % 16) % 16
  }

  /** The wrap-around of the counter does not disturb this: 16 divides 2^32. */
  lemma CheckComes(k: nat)
    requires k < WORD
    ensures UntilCheck(k) <= 15 && (k % 16 == 0 <==> UntilCheck(k) == 0)
    ensures k % 16 != 0 ==> UntilCheck((k + 1) % WORD) == UntilCheck(k) - 1
  {
  }

  ghost predicate TimeOk(c: Setup, s: State) {
    && s.iteration < WORD && (!s.late ==> s.lateIters == 0)
    && (c.timeout && s.late ==>
          match s.pc
          case Out(o) => s.lateIters <= 16
          case Check => s.lateIters + UntilCheck(s.iteration) <= 16
          case _ => s.lateIters + UntilCheck(s.iteration) <= 15)
  }

  lemma {:induction false} TimeInv(c: Setup, ss: seq<State>, acts: seq<Action>, i: nat)
    requires c.line > 0 && Run(c, ss, acts) && i <= |acts|
    ensures TimeOk(c, ss[i])
  {
    if i > 0 {
      TimeInv(c, ss, acts, i - 1);
      TimeStep(c, ss[i - 1], ss[i], acts[i - 1]);
    }
  }

  lemma TimeStep(c: Setup, s: State, s': State, a: Action)
    requires c.line > 0 && TimeOk(c, s) && Next(c, s, s', a)
    ensures TimeOk(c, s')
  {
    CheckComes(s.iteration);
    CheckComes((s.iteration + 1) % WORD);
  }

  /** With a timeout set, at most 16 iterations begin after the deadline, however often the 32-bit counter wraps. */
  lemma LeavesInTime(c: Setup, ss: seq<State>, acts: seq<Action>, i: nat)
    requires c.line > 0 && c.timeout && Run(c, ss, acts) && i <= |acts|
    ensures ss[i].lateIters <= 16
    ensures ss[i].lateIters == 16 ==> ss[i].pc == Check || ss[i].pc.Out?
  {
    TimeInv(c, ss, acts, i);
  }
}
