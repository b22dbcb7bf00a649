/**
 Sharing out wall time among the tasks of a build. The reference: between two consecutive start or stop times the
 elapsed time is divided equally among the tasks running throughout; a task's weighted duration is the sum of its
 shares. */
module BuildSweep {
  datatype Task = Task(start: real, end: real)

  /** A start or stop of task `id`. */
  datatype Event = Event(time: real, stop: bool, id: nat)

  // --- Sorted events -------------------------------------------------------------------------------------------------

  /** Order by time; at equal times starts come first. */
  predicate Before(a: Event, b: Event) {
    a.time < b.time || (a.time == b.time && (!a.stop || b.stop))
  }

  predicate Sorted(s: seq<Event>) {
    forall i, j :: 0 <= i < j < |s| ==> Before(s[i], s[j])
  }

  predicate NoDup(s: seq<Event>) {
    forall i, j :: 0 <= i < j < |s| ==> s[i] != s[j]
  }

  function Events(tasks: seq<Task>): (r: seq<Event>)
    ensures |r| == 2 * |tasks|
  {
    if tasks == [] then []
    else
      var n := |tasks| - 1;
      Events(tasks[..n]) + [Event(tasks[n].start, false, n), Event(tasks[n].end, true, n)]
  }

  function StartOf(tasks: seq<Task>, i: nat): Event
    requires i < |tasks|
  {
    Event(tasks[i].start, false, i)
  }

  function StopOf(tasks: seq<Task>, i: nat): Event
    requires i < |tasks|
  {
    Event(tasks[i].end, true, i)
  }

  predicate IsEvent(tasks: seq<Task>, e: Event) {
    e.id < |tasks| && e == if e.stop then StopOf(tasks, e.id) else StartOf(tasks, e.id)
  }

  lemma {:induction false} EventsAre(tasks: seq<Task>)
    ensures NoDup(Events(tasks)) && forall e :: e in Events(tasks) <==> IsEvent(tasks, e)
  {
    if tasks != [] {
      var n := |tasks| - 1;
      EventsAre(tasks[..n]);
      OneTaskMore(tasks, Events(tasks[..n]));
    }
  }

  lemma OneTaskMore(tasks: seq<Task>, r: seq<Event>)
    requires |tasks| > 0 && NoDup(r) && forall e :: e in r <==> IsEvent(tasks[..|tasks| - 1], e)
    ensures var all := r + [StartOf(tasks, |tasks| - 1), StopOf(tasks, |tasks| - 1)];
            NoDup(all) && forall e :: e in all <==> IsEvent(tasks, e)
  {
    var n := |tasks| - 1;
    var front := tasks[..n];
    forall i | 0 <= i < |r|
      ensures r[i].id < n
    {
      assert r[i] in r;
      assert IsEvent(front, r[i]);
    }
    forall e: Event
      ensures IsEvent(tasks, e) <==> IsEvent(front, e) || e == StartOf(tasks, n) || e == StopOf(tasks, n)
    {
      if e.id < n {
        assert front[e.id] == tasks[e.id];
      }
    }
  }

  function Insert(s: seq<Event>, e: Event): (r: seq<Event>)
    ensures |r| == |s| + 1 && forall x :: x in r <==> x in s || x == e
  {
    if s == [] then [e]
    else if Before(s[|s| - 1], e) then s + [e]
    else Insert(s[..|s| - 1], e) + [s[|s| - 1]]
  }

  function Sort(s: seq<Event>): (r: seq<Event>)
    ensures |r| == |s| && forall x :: x in r <==> x in s
  {
    if s == [] then [] else Insert(Sort(s[..|s| - 1]), s[|s| - 1])
  }

  lemma {:induction false} InsertSorted(s: seq<Event>, e: Event)
    requires Sorted(s)
    ensures Sorted(Insert(s, e)) && (NoDup(s) && e !in s ==> NoDup(Insert(s, e)))
  {
    if s != [] {
      var l, front := s[|s| - 1], s[..|s| - 1];
      if Before(l, e) {
        forall i | 0 <= i < |s|
          ensures Before(s[i], e)
        {
          assert i < |s| - 1 ==> Before(s[i], l);
        }
      } else {
        InsertSorted(front, e);
        var r := Insert(front, e);
        forall i | 0 <= i < |r|
          ensures Before(r[i], l) && (NoDup(s) && e !in s ==> r[i] != l)
        {
          assert r[i] in r;
          if r[i] in front {
            var k :| 0 <= k < |front| && front[k] == r[i];
            assert s[k] == r[i];
          }
        }
        assert NoDup(s) ==> NoDup(front);
      }
    }
  }

  lemma {:induction false} SortSorted(s: seq<Event>)
    ensures Sorted(Sort(s)) && (NoDup(s) ==> NoDup(Sort(s)))
  {
    if s != [] {
      var front := s[..|s| - 1];
      SortSorted(front);
      InsertSorted(Sort(front), s[|s| - 1]);
      if NoDup(s) {
        assert NoDup(front);
        assert s[|s| - 1] !in front;
      }
    }
  }

  /** What the sweep sees: every start and stop once, in order. */
  ghost predicate Timeline(tasks: seq<Task>, s: seq<Event>) {
    && |s| == 2 * |tasks| && Sorted(s) && NoDup(s)
    && forall e :: e in s <==> IsEvent(tasks, e)
  }

  lemma SortTimeline(tasks: seq<Task>)
    ensures Timeline(tasks, Sort(Events(tasks)))
  {
    EventsAre(tasks);
    SortSorted(Events(tasks));
  }

  // --- Reference -----------------------------------------------------------------------------------------------------

  /** Segment j lies between the j-th and the next time stamp; task i runs throughout it. */
  predicate Covers(tasks: seq<Task>, s: seq<Event>, i: nat, j: nat)
    requires i < |tasks| && j + 1 < |s|
  {
    tasks[i].start <= s[j].time && s[j + 1].time <= tasks[i].end
  }

  ghost function Running(tasks: seq<Task>, s: seq<Event>, j: nat): set<nat>
    requires j + 1 < |s|
  {
    set i | 0 <= i < |tasks| && Covers(tasks, s, i, j)
  }

  ghost function Share(tasks: seq<Task>, s: seq<Event>, j: nat): real
    requires j + 1 < |s|
  {
    var n := |Running(tasks, s, j)|;
    if n == 0 then 0.0 else (s[j + 1].time - s[j].time) / n as real
  }

  /** Task i's shares of the first m segments. */
  ghost function Weighted(tasks: seq<Task>, s: seq<Event>, i: nat, m: nat): real
    requires i < |tasks| && m < |s|
  {
    if m == 0 then 0.0
    else Weighted(tasks, s, i, m - 1) + if Covers(tasks, s, i, m - 1) then Share(tasks, s, m - 1) else 0.0
  }

  /** Time in the first m segments during which something ran. */
  ghost function Busy(tasks: seq<Task>, s: seq<Event>, m: nat): real
    requires m < |s|
  {
    if m == 0 then 0.0
    else Busy(tasks, s, m - 1) + if Running(tasks, s, m - 1) == {} then 0.0 else s[m].time - s[m - 1].time
  }

  ghost function SumWeighted(tasks: seq<Task>, s: seq<Event>, n: nat, m: nat): real
    requires n <= |tasks| && m < |s|
  {
    if n == 0 then 0.0 else SumWeighted(tasks, s, n - 1, m) + Weighted(tasks, s, n - 1, m)
  }

  // --- Conservation --------------------------------------------------------------------------------------------------

  ghost function RunningBelow(tasks: seq<Task>, s: seq<Event>, j: nat, n: nat): set<nat>
    requires j + 1 < |s| && n <= |tasks|
  {
    set i | 0 <= i < n && Covers(tasks, s, i, j)
  }

  lemma {:induction false} SumStep(tasks: seq<Task>, s: seq<Event>, n: nat, m: nat)
    requires n <= |tasks| && m + 1 < |s|
    ensures SumWeighted(tasks, s, n, m + 1)
         == SumWeighted(tasks, s, n, m) + |RunningBelow(tasks, s, m, n)| as real * Share(tasks, s, m)
  {
    if n > 0 {
      SumStep(tasks, s, n - 1, m);
      var a, b := RunningBelow(tasks, s, m, n - 1), RunningBelow(tasks, s, m, n);
      if Covers(tasks, s, n - 1, m) {
        assert b == a + {n - 1};
        OneMore(|a|, Share(tasks, s, m));
      } else {
        assert b == a;
      }
    } else {
      assert RunningBelow(tasks, s, m, 0) == {};
    }
  }

  lemma OneMore(n: nat, x: real)
    ensures (n + 1) as real * x == n as real * x + x
  {
  }

  /** Sharing out loses nothing: the weighted durations add up to the busy time. */
  lemma {:induction false} Conserved(tasks: seq<Task>, s: seq<Event>, m: nat)
    requires m < |s|
    ensures SumWeighted(tasks, s, |tasks|, m) == Busy(tasks, s, m)
  {
    if m == 0 {
      NothingYet(tasks, s, |tasks|);
    } else {
      Conserved(tasks, s, m - 1);
      SumStep(tasks, s, |tasks|, m - 1);
      var n := |Running(tasks, s, m - 1)|;
      assert RunningBelow(tasks, s, m - 1, |tasks|) == Running(tasks, s, m - 1);
      if n > 0 {
        DivideBack(s[m].time - s[m - 1].time, n as real);
      }
    }
  }

  lemma DivideBack(a: real, b: real)
    requires b != 0.0
    ensures b * (a / b) == a
  {
  }

  lemma {:induction false} NothingYet(tasks: seq<Task>, s: seq<Event>, n: nat)
    requires n <= |tasks| && |s| > 0
    ensures SumWeighted(tasks, s, n, 0) == 0.0
  {
    if n > 0 {
      NothingYet(tasks, s, n - 1);
    }
  }
}
