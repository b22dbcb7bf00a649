/**
 The time in which something ran, as the length of the union of the tasks' intervals: taken by start time, each interval
 counts only as far as it goes beyond the furthest end so far.
 */
module BuildUnion {
  import opened BuildSweep
  import opened BuildReport
  import opened Arith

  /** The furthest end of the listed tasks. */
  function Reach(tasks: seq<Task>, ids: seq<nat>, from: real): real
    requires forall i :: 0 <= i < |ids| ==> ids[i] < |tasks|
  {
    if ids == [] then from else Max(Reach(tasks, ids[..|ids| - 1], from), tasks[ids[|ids| - 1]].end)
  }

  /** The length of the union of the listed intervals. */
  function Union(tasks: seq<Task>, ids: seq<nat>, from: real): real
    requires forall i :: 0 <= i < |ids| ==> ids[i] < |tasks|
  {
    if ids == [] then 0.0
    else
      var front, t := ids[..|ids| - 1], tasks[ids[|ids| - 1]];
      Union(tasks, front, from) + Max(0.0, t.end - Max(t.start, Reach(tasks, front, from)))
  }

  /** The tasks in the order in which they start. */
  function Starts(s: seq<Event>, m: nat): seq<nat>
    requires m <= |s|
  {
    if m == 0 then [] else if s[m - 1].stop then Starts(s, m - 1) else Starts(s, m - 1) + [s[m - 1].id]
  }

  lemma {:induction false} StartsAre(tasks: seq<Task>, s: seq<Event>, m: nat)
    requires Timeline(tasks, s) && m <= |s|
    ensures forall i :: 0 <= i < |Starts(s, m)| ==> Starts(s, m)[i] < |tasks|
    ensures forall i :: i in Starts(s, m) <==> 0 <= i < |tasks| && StartPos(tasks, s, i) < m
  {
    if m > 0 {
      StartsAre(tasks, s, m - 1);
      EventAt(tasks, s, m - 1);
    }
  }

  /** Every task is listed, by start time. */
  lemma {:induction false} StartsSorted(tasks: seq<Task>, s: seq<Event>, m: nat)
    requires Timeline(tasks, s) && m <= |s|
    ensures forall i :: 0 <= i < |Starts(s, m)| ==> Starts(s, m)[i] < |tasks|
    ensures forall i, j :: 0 <= i < j < |Starts(s, m)| ==>
      Starts(s, m)[i] != Starts(s, m)[j] && tasks[Starts(s, m)[i]].start <= tasks[Starts(s, m)[j]].start
  {
    StartsAre(tasks, s, m);
    if m > 0 {
      StartsSorted(tasks, s, m - 1);
      StartsAre(tasks, s, m - 1);
      if !s[m - 1].stop {
        EventAt(tasks, s, m - 1);
        var ids := Starts(s, m - 1);
        forall i | 0 <= i < |ids|
          ensures ids[i] != s[m - 1].id && tasks[ids[i]].start <= s[m - 1].time
        {
          assert ids[i] in ids;
          TimesSorted(s, StartPos(tasks, s, ids[i]), m - 1);
        }
      }
    }
  }

  lemma {:induction false} ReachIs(tasks: seq<Task>, ids: seq<nat>, from: real)
    requires forall i :: 0 <= i < |ids| ==> ids[i] < |tasks|
    ensures from <= Reach(tasks, ids, from) && forall i :: i in ids ==> tasks[i].end <= Reach(tasks, ids, from)
    ensures Reach(tasks, ids, from) == from || exists i :: i in ids && tasks[i].end == Reach(tasks, ids, from)
  {
    if ids != [] {
      var front, l := ids[..|ids| - 1], ids[|ids| - 1];
      ReachIs(tasks, front, from);
      assert ids == front + [l];
    }
  }

  /** What the intervals listed before event m still have to go at its time. */
  ghost function Pending(tasks: seq<Task>, s: seq<Event>, k: nat, m: nat): real
    requires Timeline(tasks, s) && k <= |s| && m < |s|
  {
    StartsAre(tasks, s, k);
    Max(0.0, Reach(tasks, Starts(s, k), s[0].time) - s[m].time)
  }

  ghost function UnionBefore(tasks: seq<Task>, s: seq<Event>, m: nat): real
    requires Timeline(tasks, s) && 0 < |s| && m <= |s|
  {
    StartsAre(tasks, s, m);
    Union(tasks, Starts(s, m), s[0].time)
  }

  /** An interval adds to the union what it adds to the pending time. */
  lemma OneEvent(tasks: seq<Task>, s: seq<Event>, m: nat)
    requires Timeline(tasks, s) && m < |s| && forall i :: 0 <= i < |tasks| ==> tasks[i].start <= tasks[i].end
    ensures UnionBefore(tasks, s, m + 1) - UnionBefore(tasks, s, m)
        == Pending(tasks, s, m + 1, m) - Pending(tasks, s, m, m)
  {
    StartsAre(tasks, s, m);
    StartsAre(tasks, s, m + 1);
    if !s[m].stop {
      EventAt(tasks, s, m);
      var ids := Starts(s, m);
      assert Starts(s, m + 1)[..|ids|] == ids;
    }
  }

  /** From one time stamp to the next, pending time runs off exactly while something runs. */
  lemma OneSegment(tasks: seq<Task>, s: seq<Event>, m: nat)
    requires Timeline(tasks, s) && m + 1 < |s|
    ensures Pending(tasks, s, m + 1, m) - Pending(tasks, s, m + 1, m + 1)
         == if Running(tasks, s, m) == {} then 0.0 else s[m + 1].time - s[m].time
  {
    StartsAre(tasks, s, m + 1);
    var ids := Starts(s, m + 1);
    ReachIs(tasks, ids, s[0].time);
    TimesSorted(s, m, m + 1);
    TimesSorted(s, 0, m);
    var r := Reach(tasks, ids, s[0].time);
    if s[m].time < s[m + 1].time {
      if Running(tasks, s, m) != {} {
        var i :| i in Running(tasks, s, m);
        Started(tasks, s, i, m);
        assert i in ids;
      } else if r > s[m].time {
        var i :| i in ids && tasks[i].end == r;
        StillRuns(tasks, s, i, m);
      }
    }
  }

  lemma Started(tasks: seq<Task>, s: seq<Event>, i: nat, m: nat)
    requires Timeline(tasks, s) && i < |tasks| && m + 1 < |s| && s[m].time < s[m + 1].time
        && tasks[i].start <= s[m].time
    ensures StartPos(tasks, s, i) < m + 1
  {
    if StartPos(tasks, s, i) > m {
      TimesSorted(s, m + 1, StartPos(tasks, s, i));
    }
  }

  lemma StillRuns(tasks: seq<Task>, s: seq<Event>, i: nat, m: nat)
    requires Timeline(tasks, s) && i < |tasks| && m + 1 < |s| && StartPos(tasks, s, i) <= m && s[m].time < tasks[i].end
    ensures i in Running(tasks, s, m)
  {
    TimesSorted(s, StartPos(tasks, s, i), m);
    if StopPos(tasks, s, i) <= m {
      TimesSorted(s, StopPos(tasks, s, i), m);
    } else {
      TimesSorted(s, m + 1, StopPos(tasks, s, i));
    }
  }

  lemma {:induction false} BusyAndPending(tasks: seq<Task>, s: seq<Event>, m: nat)
    requires Timeline(tasks, s) && m < |s| && forall i :: 0 <= i < |tasks| ==> tasks[i].start <= tasks[i].end
    ensures Busy(tasks, s, m) + Pending(tasks, s, m, m) == UnionBefore(tasks, s, m)
  {
    if m > 0 {
      BusyAndPending(tasks, s, m - 1);
      OneEvent(tasks, s, m - 1);
      OneSegment(tasks, s, m - 1);
    }
  }

  /** The busy time is the length of the union of all intervals. */
  lemma BusyIsUnion(tasks: seq<Task>, s: seq<Event>)
    requires Timeline(tasks, s) && |s| > 0 && forall i :: 0 <= i < |tasks| ==> tasks[i].start <= tasks[i].end
    ensures Busy(tasks, s, |s| - 1) == UnionBefore(tasks, s, |s|)
  {
    var m := |s| - 1;
    BusyAndPending(tasks, s, m);
    OneEvent(tasks, s, m);
    StartsAre(tasks, s, |s|);
    ReachIs(tasks, Starts(s, |s|), s[0].time);
    TimesSorted(s, 0, m);
    forall i | 0 <= i < |tasks|
      ensures tasks[i].end <= s[m].time
    {
      TimesSorted(s, StopPos(tasks, s, i), m);
    }
  }
}
