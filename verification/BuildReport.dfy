/** The sweep over a build's start and stop events, and what it computes. */
module BuildReport {
  import opened BuildSweep

  // --- Positions of events -------------------------------------------------------------------------------------------

  ghost function Pos(s: seq<Event>, e: Event): (p: nat)
    requires e in s
    ensures p < |s| && s[p] == e
  {
    var p :| 0 <= p < |s| && s[p] == e;
    p
  }

  ghost function StartPos(tasks: seq<Task>, s: seq<Event>, i: nat): (p: nat)
    requires Timeline(tasks, s) && i < |tasks|
    ensures p < |s| && s[p] == StartOf(tasks, i)
  {
    assert IsEvent(tasks, StartOf(tasks, i));
    Pos(s, StartOf(tasks, i))
  }

  ghost function StopPos(tasks: seq<Task>, s: seq<Event>, i: nat): (p: nat)
    requires Timeline(tasks, s) && i < |tasks|
    ensures p < |s| && s[p] == StopOf(tasks, i)
  {
    assert IsEvent(tasks, StopOf(tasks, i));
    Pos(s, StopOf(tasks, i))
  }

  /** A task's start comes before its stop exactly when it does not end before it starts. */
  lemma StartsFirst(tasks: seq<Task>, s: seq<Event>, i: nat)
    requires Timeline(tasks, s) && i < |tasks|
    ensures StartPos(tasks, s, i) < StopPos(tasks, s, i) <==> tasks[i].start <= tasks[i].end
    ensures StartPos(tasks, s, i) != StopPos(tasks, s, i)
  {
    var p, q := StartPos(tasks, s, i), StopPos(tasks, s, i);
    assert s[p] != s[q];
    if p < q {
      assert Before(s[p], s[q]);
    } else {
      assert Before(s[q], s[p]);
    }
  }

  lemma TimesSorted(s: seq<Event>, i: nat, j: nat)
    requires Sorted(s) && i <= j < |s|
    ensures s[i].time <= s[j].time
  {
    if i < j {
      assert Before(s[i], s[j]);
    }
  }

  // --- The running total ---------------------------------------------------------------------------------------------

  /** Shares of the first k segments, added up. */
  ghost function Acc(tasks: seq<Task>, s: seq<Event>, k: nat): real
    requires k < |s|
  {
    if k == 0 then 0.0 else Acc(tasks, s, k - 1) + Share(tasks, s, k - 1)
  }

  /** The tasks whose start has been processed before event k, and whose stop has not. */
  ghost function Live(tasks: seq<Task>, s: seq<Event>, k: nat): set<nat>
    requires Timeline(tasks, s)
  {
    set i | 0 <= i < |tasks| && StartPos(tasks, s, i) < k <= StopPos(tasks, s, i)
  }

  lemma LiveIsRunning(tasks: seq<Task>, s: seq<Event>, k: nat)
    requires Timeline(tasks, s) && 0 < k < |s| && s[k - 1].time < s[k].time
    ensures Live(tasks, s, k) == Running(tasks, s, k - 1)
  {
    forall i | 0 <= i < |tasks|
      ensures i in Live(tasks, s, k) <==> i in Running(tasks, s, k - 1)
    {
      var p, q := StartPos(tasks, s, i), StopPos(tasks, s, i);
      if p < k {
        TimesSorted(s, p, k - 1);
      } else {
        TimesSorted(s, k, p);
      }
      if k <= q {
        TimesSorted(s, k, q);
      } else {
        TimesSorted(s, q, k - 1);
      }
    }
  }

  /** One step of the running total adds one segment's share. */
  lemma Accumulates(tasks: seq<Task>, s: seq<Event>, k: nat)
    requires Timeline(tasks, s) && 0 < k < |s|
    ensures var n := |Live(tasks, s, k)|;
            Acc(tasks, s, k) == Acc(tasks, s, k - 1) + if n > 0 then (s[k].time - s[k - 1].time) / n as real else 0.0
  {
    TimesSorted(s, k - 1, k);
    if s[k - 1].time < s[k].time {
      LiveIsRunning(tasks, s, k);
    } else {
      ZeroOver(|Live(tasks, s, k)|);
      ZeroOver(|Running(tasks, s, k - 1)|);
    }
  }

  lemma ZeroOver(n: nat)
    ensures n > 0 ==> 0.0 / n as real == 0.0
  {
  }

  /** A task's shares are the growth of the running total between its start and its stop. */
  lemma {:induction false} WeightedIs(tasks: seq<Task>, s: seq<Event>, i: nat, m: nat)
    requires Timeline(tasks, s) && i < |tasks| && m < |s| && tasks[i].start <= tasks[i].end
    ensures var p, q := StartPos(tasks, s, i), StopPos(tasks, s, i);
            Weighted(tasks, s, i, m) ==
              if m <= p then 0.0
              else if m <= q then Acc(tasks, s, m) - Acc(tasks, s, p)
              else Acc(tasks, s, q) - Acc(tasks, s, p)
  {
    StartsFirst(tasks, s, i);
    if m > 0 {
      WeightedIs(tasks, s, i, m - 1);
      ShareInside(tasks, s, i, m - 1);
    }
  }

  /** Segment j belongs to task i if it lies between start and stop; otherwise it is not covered or has no length. */
  lemma ShareInside(tasks: seq<Task>, s: seq<Event>, i: nat, j: nat)
    requires Timeline(tasks, s) && i < |tasks| && j + 1 < |s|
    ensures StartPos(tasks, s, i) <= j < StopPos(tasks, s, i) ==> Covers(tasks, s, i, j)
    ensures !(StartPos(tasks, s, i) <= j < StopPos(tasks, s, i)) && Covers(tasks, s, i, j) ==> Share(tasks, s, j) == 0.0
  {
    var p, q := StartPos(tasks, s, i), StopPos(tasks, s, i);
    TimesSorted(s, j, j + 1);
    if p <= j {
      TimesSorted(s, p, j);
    } else {
      TimesSorted(s, j + 1, p);
    }
    if j < q {
      TimesSorted(s, j + 1, q);
    } else {
      TimesSorted(s, q, j);
    }
    ZeroOver(|Running(tasks, s, j)|);
  }

  // --- The scan ------------------------------------------------------------------------------------------------------

  class Target {
    const start: real
    const end: real
    var weightedDuration: real

    constructor (start: real, end: real)
      ensures this.start == start && this.end == end && weightedDuration == 0.0
    {
      this.start, this.end, weightedDuration := start, end, 0.0;
    }

    method SetWeightedDuration(w: real)
      modifies this
      ensures weightedDuration == w
    {
      weightedDuration := w;
    }
  }

  function Tasks(entries: seq<Target>): seq<Task> {
    seq(|entries|, i requires 0 <= i < |entries| => Task(entries[i].start, entries[i].end))
  }

  ghost predicate Distinct(entries: seq<Target>) {
    forall i, j :: 0 <= i < j < |entries| ==> entries[i] != entries[j]
  }

  /** Weighted duration of task i as the scan knows it. */
  ghost function Gained(tasks: seq<Task>, s: seq<Event>, i: nat): real
    requires Timeline(tasks, s) && i < |tasks|
  {
    Acc(tasks, s, StopPos(tasks, s, i)) - Acc(tasks, s, StartPos(tasks, s, i))
  }

  ghost function TotalBefore(tasks: seq<Task>, s: seq<Event>, k: nat, n: nat): real
    requires Timeline(tasks, s) && n <= |tasks|
  {
    if n == 0 then 0.0
    else TotalBefore(tasks, s, k, n - 1) + if StopPos(tasks, s, n - 1) < k then Gained(tasks, s, n - 1) else 0.0
  }

  lemma {:induction false} TotalStays(tasks: seq<Task>, s: seq<Event>, k: nat, n: nat)
    requires Timeline(tasks, s) && n <= |tasks| && forall i :: 0 <= i < n ==> StopPos(tasks, s, i) != k
    ensures TotalBefore(tasks, s, k + 1, n) == TotalBefore(tasks, s, k, n)
  {
    if n > 0 {
      TotalStays(tasks, s, k, n - 1);
    }
  }

  lemma {:induction false} TotalGrows(tasks: seq<Task>, s: seq<Event>, k: nat, n: nat, i: nat)
    requires Timeline(tasks, s) && i < n <= |tasks| && StopPos(tasks, s, i) == k
    ensures TotalBefore(tasks, s, k + 1, n) == TotalBefore(tasks, s, k, n) + Gained(tasks, s, i)
  {
    if n - 1 == i {
      TotalStays(tasks, s, k, i);
    } else {
      TotalGrows(tasks, s, k, n - 1, i);
      assert s[StopPos(tasks, s, n - 1)] != s[k];
    }
  }

  /** Which event stands at position k. */
  lemma EventAt(tasks: seq<Task>, s: seq<Event>, k: nat)
    requires Timeline(tasks, s) && k < |s|
    ensures s[k].id < |tasks| && k == if s[k].stop then StopPos(tasks, s, s[k].id) else StartPos(tasks, s, s[k].id)
    ensures forall j :: 0 <= j < |tasks| && StartPos(tasks, s, j) == k ==> !s[k].stop && j == s[k].id
    ensures forall j :: 0 <= j < |tasks| && StopPos(tasks, s, j) == k ==> s[k].stop && j == s[k].id
  {
    assert s[k] in s && IsEvent(tasks, s[k]);
    var p := if s[k].stop then StopPos(tasks, s, s[k].id) else StartPos(tasks, s, s[k].id);
    assert s[p] == s[k];
  }

  /** Starting task i: it was not running and will be. */
  lemma StartEvent(tasks: seq<Task>, s: seq<Event>, k: nat)
    requires Timeline(tasks, s) && k < |s| && !s[k].stop
    requires forall i :: 0 <= i < |tasks| && StopPos(tasks, s, i) < k ==> tasks[i].start <= tasks[i].end
    ensures var i := s[k].id;
            && i < |tasks| && StartPos(tasks, s, i) == k && i !in Live(tasks, s, k)
            && Live(tasks, s, k + 1) == Live(tasks, s, k) + {i}
            && TotalBefore(tasks, s, k + 1, |tasks|) == TotalBefore(tasks, s, k, |tasks|)
            && forall j :: 0 <= j < |tasks| ==> StopPos(tasks, s, j) != k
  {
    EventAt(tasks, s, k);
    StartsFirst(tasks, s, s[k].id);
    assert StopPos(tasks, s, s[k].id) > k;
    TotalStays(tasks, s, k, |tasks|);
  }

  lemma StopLive(tasks: seq<Task>, s: seq<Event>, k: nat)
    requires Timeline(tasks, s) && k < |s| && s[k].stop
    ensures var i := s[k].id;
            && i < |tasks| && (i in Live(tasks, s, k) <==> tasks[i].start <= tasks[i].end)
            && Live(tasks, s, k + 1) == Live(tasks, s, k) - {i}
  {
    EventAt(tasks, s, k);
    StartsFirst(tasks, s, s[k].id);
  }

  /** Stopping task i: it is running unless it ends before it starts. */
  lemma StopEvent(tasks: seq<Task>, s: seq<Event>, k: nat)
    requires Timeline(tasks, s) && k < |s| && s[k].stop
    ensures var i := s[k].id;
            && i < |tasks| && StopPos(tasks, s, i) == k && (i in Live(tasks, s, k) <==> tasks[i].start <= tasks[i].end)
            && Live(tasks, s, k + 1) == Live(tasks, s, k) - {i}
            && TotalBefore(tasks, s, k + 1, |tasks|) == TotalBefore(tasks, s, k, |tasks|) + Gained(tasks, s, i)
            && forall j :: 0 <= j < |tasks| && StopPos(tasks, s, j) == k ==> j == i
  {
    EventAt(tasks, s, k);
    StopLive(tasks, s, k);
    TotalGrows(tasks, s, k, |tasks|, s[k].id);
  }

  ghost function AccBefore(tasks: seq<Task>, s: seq<Event>, k: nat): real
    requires k <= |s|
  {
    if k == 0 then 0.0 else Acc(tasks, s, k - 1)
  }

  /** Tasks stopped before event k have their weighted duration. */
  ghost predicate SetUpTo(tasks: seq<Task>, s: seq<Event>, entries: seq<Target>, k: nat)
    requires Timeline(tasks, s) && |entries| == |tasks|
    reads entries
  {
    forall i :: 0 <= i < |tasks| && StopPos(tasks, s, i) < k ==>
      tasks[i].start <= tasks[i].end && entries[i].weightedDuration == Gained(tasks, s, i)
  }

  ghost predicate Noted(tasks: seq<Task>, s: seq<Event>, running: map<nat, real>, k: nat)
    requires Timeline(tasks, s) && k <= |s|
  {
    && running.Keys == Live(tasks, s, k)
    && forall i :: i in running ==> running[i] == Acc(tasks, s, StartPos(tasks, s, i))
  }

  /** The running total at event k. */
  method Advance(ghost tasks: seq<Task>, s: seq<Event>, k: nat, running: map<nat, real>, last: real, lastTime: real)
      returns (w: real)
    requires Timeline(tasks, s) && k < |s| && Noted(tasks, s, running, k)
    requires last == AccBefore(tasks, s, k) && lastTime == s[if k == 0 then 0 else k - 1].time
    ensures w == Acc(tasks, s, k)
  {
    w := last;
    if |running| > 0 {
      w := w + (s[k].time - lastTime) / |running| as real;
    }
    assert |running.Keys| == |running|;
    if k > 0 {
      Accumulates(tasks, s, k);
    } else {
      assert Live(tasks, s, 0) == {};
    }
  }

  lemma NoteStart(tasks: seq<Task>, s: seq<Event>, running: map<nat, real>, k: nat)
    requires Timeline(tasks, s) && k < |s| && !s[k].stop && Noted(tasks, s, running, k)
    requires forall i :: 0 <= i < |tasks| && StopPos(tasks, s, i) < k ==> tasks[i].start <= tasks[i].end
    ensures Noted(tasks, s, running[s[k].id := Acc(tasks, s, k)], k + 1)
  {
    StartEvent(tasks, s, k);
  }

  lemma NoteStop(tasks: seq<Task>, s: seq<Event>, running: map<nat, real>, k: nat)
    requires Timeline(tasks, s) && k < |s| && s[k].stop && Noted(tasks, s, running, k) && s[k].id in running
    ensures Noted(tasks, s, running - {s[k].id}, k + 1)
    ensures s[k].id < |tasks| && Acc(tasks, s, k) - running[s[k].id] == Gained(tasks, s, s[k].id)
  {
    StopEvent(tasks, s, k);
  }

  /** A start event. */
  method StartTask(ghost tasks: seq<Task>, s: seq<Event>, k: nat, ghost entries: seq<Target>, running: map<nat, real>,
                   last: real, ghost total: real)
      returns (running': map<nat, real>)
    requires Timeline(tasks, s) && k < |s| && !s[k].stop && |entries| == |tasks|
    requires Noted(tasks, s, running, k) && SetUpTo(tasks, s, entries, k) && last == Acc(tasks, s, k)
    requires total == TotalBefore(tasks, s, k, |tasks|)
    ensures Noted(tasks, s, running', k + 1) && SetUpTo(tasks, s, entries, k + 1)
        && total == TotalBefore(tasks, s, k + 1, |tasks|)
  {
    StartEvent(tasks, s, k);
    NoteStart(tasks, s, running, k);
    running' := running[s[k].id := last];
  }

  /** A stop event. */
  method StopTask(ghost tasks: seq<Task>, s: seq<Event>, k: nat, entries: seq<Target>, running: map<nat, real>,
                  last: real, total: real)
      returns (ok: bool, running': map<nat, real>, total': real)
    requires Timeline(tasks, s) && k < |s| && s[k].stop && |entries| == |tasks| && Distinct(entries)
    requires Noted(tasks, s, running, k) && SetUpTo(tasks, s, entries, k) && last == Acc(tasks, s, k)
    requires total == TotalBefore(tasks, s, k, |tasks|)
    modifies entries
    ensures ok ==>
      && Noted(tasks, s, running', k + 1) && SetUpTo(tasks, s, entries, k + 1)
      && total' == TotalBefore(tasks, s, k + 1, |tasks|)
    ensures !ok ==> exists i :: 0 <= i < |tasks| && tasks[i].start > tasks[i].end
  {
    StopEvent(tasks, s, k);
    var i := s[k].id;
    ok, running', total' := i in running, running, total;
    if ok {
      NoteStop(tasks, s, running, k);
      var weighted := last - running[i];
      entries[i].SetWeightedDuration(weighted);
      total' := total + weighted;
      running' := running - {i};
    } else {
      assert tasks[i].start > tasks[i].end;
    }
  }

  /** The scan of the sorted events. It fails exactly when some task ends before it starts. */
  method Scan(ghost tasks: seq<Task>, s: seq<Event>, entries: seq<Target>) returns (ok: bool, total: real)
    requires Timeline(tasks, s) && |entries| == |tasks| > 0 && Distinct(entries)
    modifies entries
    ensures ok <==> forall i :: 0 <= i < |tasks| ==> tasks[i].start <= tasks[i].end
    ensures ok ==> SetUpTo(tasks, s, entries, |s|) && total == TotalBefore(tasks, s, |s|, |tasks|)
  {
    var running: map<nat, real> := map[];
    var last, lastTime := 0.0, s[0].time;
    total := 0.0;
    NothingBefore(tasks, s, |tasks|);
    for k := 0 to |s|
      invariant Noted(tasks, s, running, k) && SetUpTo(tasks, s, entries, k)
      invariant last == AccBefore(tasks, s, k) && lastTime == s[if k == 0 then 0 else k - 1].time
      invariant total == TotalBefore(tasks, s, k, |tasks|)
    {
      last := Advance(tasks, s, k, running, last, lastTime);
      if s[k].stop {
        ok, running, total := StopTask(tasks, s, k, entries, running, last, total);
        if !ok {
          return;
        }
      } else {
        running := StartTask(tasks, s, k, entries, running, last, total);
      }
      lastTime := s[k].time;
    }
    AllStopped(tasks, s);
    ok := true;
  }

  lemma AllStopped(tasks: seq<Task>, s: seq<Event>)
    requires Timeline(tasks, s)
    ensures forall i :: 0 <= i < |tasks| ==> StopPos(tasks, s, i) < |s|
  {
  }

  lemma {:induction false} NothingBefore(tasks: seq<Task>, s: seq<Event>, n: nat)
    requires Timeline(tasks, s) && n <= |tasks|
    ensures TotalBefore(tasks, s, 0, n) == 0.0
  {
    if n > 0 {
      NothingBefore(tasks, s, n - 1);
    }
  }
}
