/** The whole summary: the scan against the reference, and what follows for the report. */
module BuildSummary {
  import opened Wrappers
  import opened BuildSweep
  import opened BuildReport
  import opened BuildUnion

  // --- The scan computes the reference -------------------------------------------------------------------------------

  lemma GainedIsWeighted(tasks: seq<Task>, s: seq<Event>, i: nat)
    requires Timeline(tasks, s) && i < |tasks| && tasks[i].start <= tasks[i].end
    ensures Gained(tasks, s, i) == Weighted(tasks, s, i, |s| - 1)
  {
    StartsFirst(tasks, s, i);
    WeightedIs(tasks, s, i, |s| - 1);
  }

  predicate Sane(tasks: seq<Task>) {
    forall i :: 0 <= i < |tasks| ==> tasks[i].start <= tasks[i].end
  }

  lemma {:induction false} TotalIsSum(tasks: seq<Task>, s: seq<Event>, n: nat, m: nat)
    requires Timeline(tasks, s) && n <= |tasks| && m < |s|
    requires forall i :: 0 <= i < n ==> Gained(tasks, s, i) == Weighted(tasks, s, i, m)
    ensures TotalBefore(tasks, s, |s|, n) == SumWeighted(tasks, s, n, m)
  {
    if n > 0 {
      TotalIsSum(tasks, s, n - 1, m);
      assert Gained(tasks, s, n - 1) == Weighted(tasks, s, n - 1, m);
    }
  }

  // --- Never more than the duration ----------------------------------------------------------------------------------

  lemma NegativeProduct(q: real, b: real)
    requires q < 0.0 < b
    ensures q * b < 0.0
  {
  }

  lemma QuotientBounds(a: real, n: nat)
    requires a >= 0.0 && n >= 1
    ensures 0.0 <= a / n as real <= a
  {
    var b := n as real;
    var q := a / b;
    assert q * b == a;
    if q < 0.0 {
      NegativeProduct(q, b);
    }
    if q > a && b > 1.0 {
      NegativeProduct(-q, b - 1.0);
    }
  }

  lemma ShareBounds(tasks: seq<Task>, s: seq<Event>, j: nat)
    requires Sorted(s) && j + 1 < |s|
    ensures 0.0 <= Share(tasks, s, j) <= s[j + 1].time - s[j].time
  {
    TimesSorted(s, j, j + 1);
    if |Running(tasks, s, j)| > 0 {
      QuotientBounds(s[j + 1].time - s[j].time, |Running(tasks, s, j)|);
    }
  }

  lemma {:induction false} AccBounds(tasks: seq<Task>, s: seq<Event>, p: nat, q: nat)
    requires Sorted(s) && p <= q < |s|
    ensures 0.0 <= Acc(tasks, s, q) - Acc(tasks, s, p) <= s[q].time - s[p].time
    decreases q - p
  {
    if p < q {
      AccBounds(tasks, s, p, q - 1);
      ShareBounds(tasks, s, q - 1);
    }
  }

  /** A task's weighted duration lies between zero and its duration. */
  lemma WithinDuration(tasks: seq<Task>, s: seq<Event>, i: nat)
    requires Timeline(tasks, s) && i < |tasks| && tasks[i].start <= tasks[i].end
    ensures 0.0 <= Weighted(tasks, s, i, |s| - 1) <= tasks[i].end - tasks[i].start
  {
    StartsFirst(tasks, s, i);
    GainedIsWeighted(tasks, s, i);
    AccBounds(tasks, s, StartPos(tasks, s, i), StopPos(tasks, s, i));
  }

  // --- Idle time -----------------------------------------------------------------------------------------------------

  predicate RunsAt(t: Task, x: real) {
    t.start <= x <= t.end
  }

  ghost predicate SomeRuns(tasks: seq<Task>, x: real) {
    exists i :: 0 <= i < |tasks| && RunsAt(tasks[i], x)
  }

  /** At every moment between the first and the last time stamp something runs. */
  ghost predicate NoIdle(tasks: seq<Task>, s: seq<Event>)
    requires |s| > 0
  {
    forall x: real :: s[0].time <= x <= s[|s| - 1].time ==> SomeRuns(tasks, x)
  }

  ghost predicate Filled(tasks: seq<Task>, s: seq<Event>, j: nat)
    requires j + 1 < |s|
  {
    s[j].time < s[j + 1].time ==> Running(tasks, s, j) != {}
  }

  /** Busy time never exceeds elapsed time, and reaches it exactly if no segment is idle. */
  lemma {:induction false} BusyBounds(tasks: seq<Task>, s: seq<Event>, m: nat)
    requires Sorted(s) && m < |s|
    ensures Busy(tasks, s, m) <= s[m].time - s[0].time
    ensures Busy(tasks, s, m) == s[m].time - s[0].time <==> forall j :: 0 <= j < m ==> Filled(tasks, s, j)
  {
    if m > 0 {
      BusyBounds(tasks, s, m - 1);
      TimesSorted(s, m - 1, m);
      assert Filled(tasks, s, m - 1) <==> Busy(tasks, s, m) - Busy(tasks, s, m - 1) == s[m].time - s[m - 1].time;
    }
  }

  /** The segment a moment falls into. */
  lemma {:induction false} SegmentOf(s: seq<Event>, x: real, m: nat) returns (j: nat)
    requires Sorted(s) && m < |s| && s[0].time < x < s[m].time && forall k :: 0 <= k < |s| ==> s[k].time != x
    ensures j < m && s[j].time < x < s[j + 1].time
    decreases m
  {
    if s[m - 1].time < x {
      j := m - 1;
    } else {
      j := SegmentOf(s, x, m - 1);
    }
  }

  lemma EventMoment(tasks: seq<Task>, s: seq<Event>, k: nat)
    requires Timeline(tasks, s) && Sane(tasks) && k < |s|
    ensures SomeRuns(tasks, s[k].time)
  {
    assert s[k] in s && IsEvent(tasks, s[k]);
    assert RunsAt(tasks[s[k].id], s[k].time);
  }

  lemma FilledMoment(tasks: seq<Task>, s: seq<Event>, j: nat, x: real)
    requires j + 1 < |s| && s[j].time < x < s[j + 1].time && Filled(tasks, s, j)
    ensures SomeRuns(tasks, x)
  {
    var i :| i in Running(tasks, s, j);
    assert RunsAt(tasks[i], x);
  }

  lemma IdleMoment(tasks: seq<Task>, s: seq<Event>, j: nat)
    requires Timeline(tasks, s) && Sane(tasks) && j + 1 < |s| && !Filled(tasks, s, j)
    ensures var x := (s[j].time + s[j + 1].time) / 2.0; !SomeRuns(tasks, x) && s[0].time <= x <= s[|s| - 1].time
  {
    var x := (s[j].time + s[j + 1].time) / 2.0;
    TimesSorted(s, 0, j);
    TimesSorted(s, j + 1, |s| - 1);
    forall i | 0 <= i < |tasks|
      ensures !RunsAt(tasks[i], x)
    {
      assert i !in Running(tasks, s, j);
      var p, q := StartPos(tasks, s, i), StopPos(tasks, s, i);
      if p > j {
        TimesSorted(s, j + 1, p);
      } else {
        TimesSorted(s, p, j);
      }
      if q <= j {
        TimesSorted(s, q, j);
      } else {
        TimesSorted(s, j + 1, q);
      }
    }
  }

  lemma NoIdleIff(tasks: seq<Task>, s: seq<Event>)
    requires Timeline(tasks, s) && Sane(tasks) && |s| > 0
    ensures NoIdle(tasks, s) <==> forall j :: 0 <= j < |s| - 1 ==> Filled(tasks, s, j)
  {
    if forall j :: 0 <= j < |s| - 1 ==> Filled(tasks, s, j) {
      forall x: real | s[0].time <= x <= s[|s| - 1].time
        ensures SomeRuns(tasks, x)
      {
        if k :| 0 <= k < |s| && s[k].time == x {
          EventMoment(tasks, s, k);
        } else {
          assert s[0].time != x && s[|s| - 1].time != x;
          var j := SegmentOf(s, x, |s| - 1);
          FilledMoment(tasks, s, j, x);
        }
      }
    } else {
      var j :| 0 <= j < |s| - 1 && !Filled(tasks, s, j);
      IdleMoment(tasks, s, j);
    }
  }

  /** The weighted durations add up to the length of the union of the tasks' intervals, which is the whole length of the
      build exactly when there is no idle gap. */
  lemma WeightedTotal(tasks: seq<Task>, s: seq<Event>)
    requires Timeline(tasks, s) && Sane(tasks) && |s| > 0
    ensures SumWeighted(tasks, s, |tasks|, |s| - 1) == UnionBefore(tasks, s, |s|) <= s[|s| - 1].time - s[0].time
    ensures SumWeighted(tasks, s, |tasks|, |s| - 1) == s[|s| - 1].time - s[0].time <==> NoIdle(tasks, s)
  {
    Conserved(tasks, s, |s| - 1);
    BusyIsUnion(tasks, s);
    BusyBounds(tasks, s, |s| - 1);
    NoIdleIff(tasks, s);
  }

  // --- The report ----------------------------------------------------------------------------------------------------

  /** earliest and latest are the first and last time stamps. */
  ghost predicate Spans(tasks: seq<Task>, earliest: real, latest: real) {
    && (forall i :: 0 <= i < |tasks| ==> earliest <= tasks[i].start && tasks[i].end <= latest)
    && (exists i :: 0 <= i < |tasks| && tasks[i].start == earliest)
    && (exists i :: 0 <= i < |tasks| && tasks[i].end == latest)
  }

  lemma SpanIs(tasks: seq<Task>, s: seq<Event>, earliest: real, latest: real)
    requires Timeline(tasks, s) && Sane(tasks) && |tasks| > 0 && Spans(tasks, earliest, latest)
    ensures s[0].time == earliest && s[|s| - 1].time == latest
  {
    var i :| 0 <= i < |tasks| && tasks[i].start == earliest;
    TimesSorted(s, 0, StartPos(tasks, s, i));
    assert s[0] in s && IsEvent(tasks, s[0]);
    var j :| 0 <= j < |tasks| && tasks[j].end == latest;
    TimesSorted(s, StopPos(tasks, s, j), |s| - 1);
    assert s[|s| - 1] in s && IsEvent(tasks, s[|s| - 1]);
  }

  ghost predicate NonNegative(tasks: seq<Task>) {
    forall i :: 0 <= i < |tasks| ==> 0.0 <= tasks[i].start
  }

  /** `earliest` after k targets. */
  function Earliest(tasks: seq<Task>, k: nat): real
    requires k <= |tasks|
  {
    if k == 0 then -1.0
    else
      var e := Earliest(tasks, k - 1);
      if e < 0.0 || tasks[k - 1].start < e then tasks[k - 1].start else e
  }

  function Latest(tasks: seq<Task>, k: nat): real
    requires k <= |tasks|
  {
    if k == 0 then 0.0 else if tasks[k - 1].end > Latest(tasks, k - 1) then tasks[k - 1].end else Latest(tasks, k - 1)
  }

  lemma {:induction false} EarliestIs(tasks: seq<Task>, k: nat)
    requires 0 < k <= |tasks|
    ensures Earliest(tasks, k) < 0.0 || tasks[k - 1].start < 0.0 ==> Earliest(tasks, k) == tasks[k - 1].start
    ensures exists i :: 0 <= i < k && tasks[i].start == Earliest(tasks, k)
    ensures (forall i :: 0 <= i < k ==> tasks[i].start >= 0.0) ==> forall i :: 0 <= i < k ==>
        Earliest(tasks, k) <= tasks[i].start
  {
    if k > 1 {
      EarliestIs(tasks, k - 1);
    } else {
      assert tasks[0].start == Earliest(tasks, 1);
    }
    assert tasks[k - 1].start == Earliest(tasks, k) || Earliest(tasks, k) == Earliest(tasks, k - 1);
  }

  /** No start time is negative, or the last target starts first. */
  ghost predicate StartKnown(tasks: seq<Task>)
    requires |tasks| > 0
  {
    NonNegative(tasks) || forall i :: 0 <= i < |tasks| ==> tasks[|tasks| - 1].start <= tasks[i].start
  }

  /** Exactly then `earliest` is the earliest start. */
  lemma EarliestIff(tasks: seq<Task>)
    requires |tasks| > 0
    ensures (forall i :: 0 <= i < |tasks| ==> Earliest(tasks, |tasks|) <= tasks[i].start) <==> StartKnown(tasks)
    ensures exists i :: 0 <= i < |tasks| && tasks[i].start == Earliest(tasks, |tasks|)
  {
    EarliestIs(tasks, |tasks|);
    var e, last := Earliest(tasks, |tasks|), tasks[|tasks| - 1].start;
    if last >= 0.0 && forall i :: 0 <= i < |tasks| ==> last <= tasks[i].start {
      assert NonNegative(tasks);
    }
    if !NonNegative(tasks) {
      var i :| 0 <= i < |tasks| && tasks[i].start < 0.0;
      assert e <= tasks[i].start ==> e == last;
    }
  }

  lemma {:induction false} LatestIs(tasks: seq<Task>, k: nat)
    requires k <= |tasks|
    ensures Latest(tasks, k) >= 0.0 && forall i :: 0 <= i < k ==> tasks[i].end <= Latest(tasks, k)
    ensures Latest(tasks, k) == 0.0 || exists i :: 0 <= i < k && tasks[i].end == Latest(tasks, k)
  {
    if k > 0 {
      LatestIs(tasks, k - 1);
      assert tasks[k - 1].end == Latest(tasks, k) || Latest(tasks, k) == Latest(tasks, k - 1);
    }
  }

  ghost predicate EndKnown(tasks: seq<Task>) {
    exists i :: 0 <= i < |tasks| && tasks[i].end >= 0.0
  }

  /** `latest` is the last end exactly if some end is not negative. */
  lemma LatestIff(tasks: seq<Task>)
    ensures (exists i :: 0 <= i < |tasks| && tasks[i].end == Latest(tasks, |tasks|)) <==> EndKnown(tasks)
    ensures forall i :: 0 <= i < |tasks| ==> tasks[i].end <= Latest(tasks, |tasks|)
  {
    LatestIs(tasks, |tasks|);
    if EndKnown(tasks) {
      var i :| 0 <= i < |tasks| && tasks[i].end >= 0.0;
      assert Latest(tasks, |tasks|) == 0.0 ==> tasks[i].end == Latest(tasks, |tasks|);
    }
  }

  lemma SpanIff(tasks: seq<Task>)
    requires |tasks| > 0
    ensures Spans(tasks, Earliest(tasks, |tasks|), Latest(tasks, |tasks|)) <==> StartKnown(tasks) && EndKnown(tasks)
  {
    EarliestIff(tasks);
    LatestIff(tasks);
  }

  /** The first loop. */
  method Collect(entries: seq<Target>) returns (events: seq<Event>, earliest: real, latest: real)
    ensures events == Events(Tasks(entries))
    ensures earliest == Earliest(Tasks(entries), |entries|) && latest == Latest(Tasks(entries), |entries|)
  {
    events, earliest, latest := [], -1.0, 0.0;
    ghost var tasks := Tasks(entries);
    for k := 0 to |entries|
      invariant events == Events(tasks[..k]) && earliest == Earliest(tasks, k) && latest == Latest(tasks, k)
    {
      var t := entries[k];
      if earliest < 0.0 || t.start < earliest {
        earliest := t.start;
      }
      if t.end > latest {
        latest := t.end;
      }
      assert tasks[..k + 1][..k] == tasks[..k];
      events := events + [Event(t.start, false, k), Event(t.end, true, k)];
    }
    assert tasks[..|entries|] == tasks;
  }

  datatype Summary = Summary(earliest: real, latest: real, weightedTotal: real)

  /** What the report says about tasks with timeline s. */
  ghost predicate Reported(tasks: seq<Task>, s: seq<Event>, entries: seq<Target>, r: Summary)
    requires |entries| == |tasks| > 0 && Timeline(tasks, s)
    reads entries
  {
    && (forall i :: 0 <= i < |tasks| ==>
          && entries[i].weightedDuration == Weighted(tasks, s, i, |s| - 1)
          && 0.0 <= entries[i].weightedDuration <= tasks[i].end - tasks[i].start)
    && r.weightedTotal == UnionBefore(tasks, s, |s|)
    && (Spans(tasks, r.earliest, r.latest) <==> StartKnown(tasks) && EndKnown(tasks))
    && (Spans(tasks, r.earliest, r.latest) ==>
          && r.weightedTotal <= r.latest - r.earliest
          && (r.weightedTotal == r.latest - r.earliest <==> NoIdle(tasks, s)))
  }

  /** The scan and what it reports. */
  method Weigh(ghost tasks: seq<Task>, s: seq<Event>, entries: seq<Target>, earliest: real, latest: real)
      returns (r: Result<Summary>)
    requires Timeline(tasks, s) && |entries| == |tasks| > 0 && Distinct(entries)
    requires earliest == Earliest(tasks, |tasks|) && latest == Latest(tasks, |tasks|)
    modifies entries
    ensures r.Ok? <==> Sane(tasks)
    ensures r.Ok? ==> Reported(tasks, s, entries, r.value)
  {
    var ok, total := Scan(tasks, s, entries);
    if !ok {
      return Err("a task stops before it starts");
    }
    Totals(tasks, s, earliest, latest);
    SpanIff(tasks);
    EachWeighted(tasks, s, entries);
    r := Ok(Summary(earliest, latest, total));
  }

  /** SummarizeEntries up to the weighted durations: it succeeds exactly on a nonempty list of tasks none of which ends
      before it starts. `s` is the sorted list of events. */
  method Summarize(entries: seq<Target>) returns (r: Result<Summary>, s: seq<Event>)
    requires Distinct(entries)
    modifies entries
    ensures Timeline(Tasks(entries), s)
    ensures r.Ok? <==> |entries| > 0 && Sane(Tasks(entries))
    ensures r.Ok? ==> Reported(Tasks(entries), s, entries, r.value)
  {
    ghost var tasks := Tasks(entries);
    var events, earliest, latest := Collect(entries);
    s := Sort(events);
    SortTimeline(tasks);
    if |s| == 0 {
      return Err("no events"), s;
    }
    r := Weigh(tasks, s, entries, earliest, latest);
  }

  lemma EachWeighted(tasks: seq<Task>, s: seq<Event>, entries: seq<Target>)
    requires Timeline(tasks, s) && Sane(tasks) && |entries| == |tasks| > 0 && SetUpTo(tasks, s, entries, |s|)
    ensures forall i :: 0 <= i < |tasks| ==>
              && entries[i].weightedDuration == Weighted(tasks, s, i, |s| - 1)
              && 0.0 <= entries[i].weightedDuration <= tasks[i].end - tasks[i].start
  {
    forall i | 0 <= i < |tasks|
      ensures entries[i].weightedDuration == Weighted(tasks, s, i, |s| - 1)
      ensures 0.0 <= entries[i].weightedDuration <= tasks[i].end - tasks[i].start
    {
      AllStopped(tasks, s);
      GainedIsWeighted(tasks, s, i);
      WithinDuration(tasks, s, i);
    }
  }

  lemma Totals(tasks: seq<Task>, s: seq<Event>, earliest: real, latest: real)
    requires Timeline(tasks, s) && Sane(tasks) && |tasks| > 0
    ensures TotalBefore(tasks, s, |s|, |tasks|) == UnionBefore(tasks, s, |s|)
    ensures Spans(tasks, earliest, latest) ==>
      && UnionBefore(tasks, s, |s|) <= latest - earliest
      && (UnionBefore(tasks, s, |s|) == latest - earliest <==> NoIdle(tasks, s))
  {
    forall i | 0 <= i < |tasks|
      ensures Gained(tasks, s, i) == Weighted(tasks, s, i, |s| - 1)
    {
      GainedIsWeighted(tasks, s, i);
    }
    TotalIsSum(tasks, s, |tasks|, |s| - 1);
    WeightedTotal(tasks, s);
    if Spans(tasks, earliest, latest) {
      SpanIs(tasks, s, earliest, latest);
    }
  }
}
