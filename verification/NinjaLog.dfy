/** Reading a build log: which lines make up the last build, and how they are grouped into targets. */
module NinjaLog {
  import opened Wrappers

  /** A log line: without five fields, with five fields whose times are no integers, or an entry (times in
      milliseconds). */
  datatype Line = Malformed | NotANumber | Entry(start: int, end: int, name: string, hash: string)

  datatype Target = Target(start: int, end: int, names: seq<string>)

  predicate AllEntries(es: seq<Line>) {
    forall i :: 0 <= i < |es| ==> es[i].Entry?
  }

  /** The well-formed lines. */
  function Entries(lines: seq<Line>): (r: seq<Line>)
    ensures AllEntries(r)
  {
    if lines == [] then []
    else
      var r := Entries(lines[..|lines| - 1]);
      if lines[|lines| - 1].Entry? then r + [lines[|lines| - 1]] else r
  }

  // --- Grouping ------------------------------------------------------------------------------------------------------

  /** The names logged for a command, in log order. */
  function NamesOf(es: seq<Line>, hash: string): seq<string>
    requires AllEntries(es)
  {
    if es == [] then []
    else
      var r := NamesOf(es[..|es| - 1], hash);
      if es[|es| - 1].hash == hash then r + [es[|es| - 1].name] else r
  }

  predicate Has(es: seq<Line>, hash: string)
    requires AllEntries(es)
  {
    exists i :: 0 <= i < |es| && es[i].hash == hash
  }

  lemma HasLast(es: seq<Line>, hash: string)
    requires AllEntries(es) && |es| > 0
    ensures Has(es, hash) <==> Has(es[..|es| - 1], hash) || es[|es| - 1].hash == hash
  {
    var front := es[..|es| - 1];
    if Has(front, hash) {
      var i :| 0 <= i < |front| && front[i].hash == hash;
      assert es[i].hash == hash;
    }
    if Has(es, hash) {
      var i :| 0 <= i < |es| && es[i].hash == hash;
      if i < |front| {
        assert front[i].hash == hash;
      }
    }
  }

  /** The commands in the order of their first entries. */
  function Commands(es: seq<Line>): (r: seq<string>)
    requires AllEntries(es)
    ensures forall h :: h in r <==> Has(es, h)
    ensures forall i, j :: 0 <= i < j < |r| ==> r[i] != r[j]
  {
    if es == [] then []
    else
      var front, last := es[..|es| - 1], es[|es| - 1];
      assert forall h :: Has(es, h) <==> Has(front, h) || last.hash == h by {
        forall h ensures Has(es, h) <==> Has(front, h) || last.hash == h {
          HasLast(es, h);
        }
      }
      var r := Commands(front);
      if last.hash in r then r else r + [last.hash]
  }

  /** The first entry of a command. */
  function FirstOf(es: seq<Line>, hash: string): (e: Line)
    requires AllEntries(es) && Has(es, hash)
    ensures e.Entry? && e.hash == hash && e in es
  {
    if es[0].hash == hash then es[0]
    else
      assert Has(es[1..], hash) by {
        var i :| 0 <= i < |es| && es[i].hash == hash;
        assert es[1..][i - 1].hash == hash;
      }
      FirstOf(es[1..], hash)
  }

  function Grouped(es: seq<Line>, hash: string): Target
    requires AllEntries(es) && hash in Commands(es)
  {
    var first := FirstOf(es, hash);
    Target(first.start, first.end, NamesOf(es, hash))
  }

  function Groups(es: seq<Line>): seq<Target>
    requires AllEntries(es)
  {
    var commands := Commands(es);
    seq(|commands|, i requires 0 <= i < |commands| => Grouped(es, commands[i]))
  }

  // --- One build -----------------------------------------------------------------------------------------------------

  /** An entry that cannot follow an earlier one in the same build. */
  predicate Conflict(a: Line, b: Line)
    requires a.Entry? && b.Entry?
  {
    b.end < a.end || (b.hash == a.hash && (b.start != a.start || b.end != a.end))
  }

  /** End times never go back, and a command has one pair of times. */
  predicate OneBuild(es: seq<Line>)
    requires AllEntries(es)
  {
    forall i, j :: 0 <= i < j < |es| ==> !Conflict(es[i], es[j])
  }

  /** The entry conflicts with one of those from c on. */
  predicate Clashes(es: seq<Line>, c: nat, e: Line)
    requires AllEntries(es) && e.Entry?
  {
    exists i :: c <= i < |es| && Conflict(es[i], e)
  }

  /** Where the last build starts: an entry that conflicts with one of its build starts the next. */
  function BuildStart(es: seq<Line>): (c: nat)
    requires AllEntries(es)
    ensures c <= |es| && (c == |es| ==> es == [])
  {
    if es == [] then 0
    else
      var front, last := es[..|es| - 1], es[|es| - 1];
      if Clashes(front, BuildStart(front), last) then |front| else BuildStart(front)
  }

  /** From there on it is one build, and its first entry conflicts with one of the build before it. */
  lemma {:induction false} BuildStartIs(es: seq<Line>)
    requires AllEntries(es)
    ensures OneBuild(es[BuildStart(es)..])
    ensures BuildStart(es) > 0 ==>
      var c := BuildStart(es); Clashes(es[..c], BuildStart(es[..c]), es[c])
  {
    if es != [] {
      var front, last := es[..|es| - 1], es[|es| - 1];
      BuildStartIs(front);
      var b, c := BuildStart(front), BuildStart(es);
      if c == |front| {
        assert es[..c] == front;
      } else {
        assert es[c..] == front[c..] + [last] && es[..c] == front[..c];
        forall i | c <= i < |front|
          ensures !Conflict(front[i], last)
        {
        }
      }
    }
  }

  function StartOf(es: seq<Line>, showAll: bool): nat
    requires AllEntries(es)
  {
    if showAll then 0 else BuildStart(es)
  }

  // --- Facts about adding one entry ----------------------------------------------------------------------------------

  lemma {:induction false} FirstStays(es: seq<Line>, e: Line, hash: string)
    requires AllEntries(es) && e.Entry? && Has(es, hash)
    ensures Has(es + [e], hash) && FirstOf(es + [e], hash) == FirstOf(es, hash)
  {
    var i :| 0 <= i < |es| && es[i].hash == hash;
    assert (es + [e])[i].hash == hash;
    if es[0].hash != hash {
      assert es[1..][i - 1].hash == hash;
      assert Has(es[1..], hash);
      FirstStays(es[1..], e, hash);
      assert (es + [e])[1..] == es[1..] + [e];
    }
  }

  lemma {:induction false} FirstIsNew(es: seq<Line>, e: Line)
    requires AllEntries(es) && e.Entry? && !Has(es, e.hash)
    ensures Has(es + [e], e.hash) && FirstOf(es + [e], e.hash) == e
  {
    assert (es + [e])[|es|].hash == e.hash;
    if es != [] {
      assert forall i :: 0 <= i < |es[1..]| ==> es[1..][i] == es[i + 1];
      FirstIsNew(es[1..], e);
      assert (es + [e])[1..] == es[1..] + [e];
    }
  }

  lemma {:induction false} NoNames(es: seq<Line>, hash: string)
    requires AllEntries(es) && !Has(es, hash)
    ensures NamesOf(es, hash) == []
  {
    if es != [] {
      HasLast(es, hash);
      NoNames(es[..|es| - 1], hash);
    }
  }

  lemma AddEntry(es: seq<Line>, e: Line)
    requires AllEntries(es) && e.Entry?
    ensures AllEntries(es + [e])
    ensures e.hash in Commands(es) ==> Commands(es + [e]) == Commands(es)
    ensures e.hash !in Commands(es) ==> Commands(es + [e]) == Commands(es) + [e.hash]
    ensures e.hash !in Commands(es) ==> Grouped(es + [e], e.hash) == Target(e.start, e.end, [e.name])
    ensures e.hash in Commands(es) ==>
              Grouped(es + [e], e.hash) == Grouped(es, e.hash).(names := Grouped(es, e.hash).names + [e.name])
    ensures forall h :: h in Commands(es) && h != e.hash ==> Grouped(es + [e], h) == Grouped(es, h)
  {
    var more := es + [e];
    assert more[..|es|] == es;
    forall h | h in Commands(es)
      ensures FirstOf(more, h) == FirstOf(es, h)
    {
      FirstStays(es, e, h);
    }
    if e.hash !in Commands(es) {
      FirstIsNew(es, e);
      NoNames(es, e.hash);
    }
  }

  // --- Reading -------------------------------------------------------------------------------------------------------

  /** The dictionary of targets holds the groups of these entries, in order. */
  ghost predicate Holds(order: seq<string>, dict: map<string, Target>, es: seq<Line>)
    requires AllEntries(es)
  {
    order == Commands(es) && (forall h :: h in dict <==> h in order) && forall h :: h in order ==>
        dict[h] == Grouped(es, h)
  }

  lemma HoldsAnother(order: seq<string>, dict: map<string, Target>, es: seq<Line>, e: Line)
    requires AllEntries(es) && e.Entry? && Holds(order, dict, es) && e.hash in dict
    ensures AllEntries(es + [e])
    ensures Holds(order, dict[e.hash := dict[e.hash].(names := dict[e.hash].names + [e.name])], es + [e])
  {
    AddEntry(es, e);
  }

  lemma HoldsFirst(order: seq<string>, dict: map<string, Target>, es: seq<Line>, e: Line)
    requires AllEntries(es) && e.Entry? && Holds(order, dict, es) && e.hash !in dict
    ensures AllEntries(es + [e])
    ensures Holds(order + [e.hash], dict[e.hash := Target(e.start, e.end, [e.name])], es + [e])
  {
    AddEntry(es, e);
  }

  /** An entry fits behind a build if its end does not go back and its command, if seen, has the same times. */
  lemma FitsBehind(es: seq<Line>, e: Line)
    requires AllEntries(es) && OneBuild(es) && e.Entry?
    requires |es| > 0 ==> es[|es| - 1].end <= e.end
    requires e.hash in Commands(es) ==> FirstOf(es, e.hash).start == e.start && FirstOf(es, e.hash).end == e.end
    ensures AllEntries(es + [e]) && OneBuild(es + [e])
  {
    forall i | 0 <= i < |es|
      ensures !Conflict(es[i], e)
    {
      if i < |es| - 1 {
        assert !Conflict(es[i], es[|es| - 1]);
      }
      if es[i].hash == e.hash {
        assert Has(es, e.hash);
        SameAsFirst(es, i);
      }
    }
  }

  lemma SameAsFirst(es: seq<Line>, i: nat)
    requires AllEntries(es) && OneBuild(es) && i < |es|
    ensures Has(es, es[i].hash)
    ensures var f := FirstOf(es, es[i].hash); f.start == es[i].start && f.end == es[i].end
  {
    assert Has(es, es[i].hash);
    var f := FirstOf(es, es[i].hash);
    var k :| 0 <= k < |es| && es[k] == f;
    if k < i {
      assert !Conflict(es[k], es[i]);
    } else if i < k {
      assert !Conflict(es[i], es[k]);
    }
  }

  /** The last entry seen, or nothing yet. */
  ghost predicate LastEnd(es: seq<Line>, lastEnd: int)
    requires AllEntries(es)
  {
    if es == [] then lastEnd == 0 else lastEnd == es[|es| - 1].end
  }

  /** What has been read: `es` are all entries so far, of which the first `cut` were thrown away. */
  ghost predicate ReadSoFar(es: seq<Line>, cut: nat, order: seq<string>, dict: map<string, Target>, lastEnd: int,
                            showAll: bool) {
    && AllEntries(es) && LastEnd(es, lastEnd) && cut == StartOf(es, showAll) && Holds(order, dict, es[cut..])
    && (!showAll ==> OneBuild(es[cut..]))
  }

  /** What is left after throwing away an older build; e can be added to it. */
  ghost predicate RoomFor(e: Line, es: seq<Line>, cut: nat, order: seq<string>, dict: map<string, Target>,
                          showAll: bool)
    requires e.Entry?
  {
    && AllEntries(es) && AllEntries(es + [e]) && cut == StartOf(es + [e], showAll) <= |es|
       && Holds(order, dict, es[cut..])
    && (!showAll ==> OneBuild(es[cut..] + [e]))
  }

  lemma StartMore(e: Line, es: seq<Line>)
    requires AllEntries(es) && e.Entry?
    ensures AllEntries(es + [e])
    ensures BuildStart(es + [e]) == if Clashes(es, BuildStart(es), e) then |es| else BuildStart(es)
  {
    assert (es + [e])[..|es|] == es;
  }

  /** Nothing kept, if there is a reason. */
  lemma StartOver(e: Line, es: seq<Line>, i: nat)
    requires AllEntries(es) && e.Entry? && (es == [] || (BuildStart(es) <= i < |es| && Conflict(es[i], e)))
    ensures RoomFor(e, es, |es|, [], map[], false)
  {
    StartMore(e, es);
    assert es[|es|..] == [];
  }

  /** Everything kept, if there is none. */
  lemma GoOn(e: Line, es: seq<Line>, cut: nat, order: seq<string>, dict: map<string, Target>, lastEnd: int)
    requires e.Entry? && ReadSoFar(es, cut, order, dict, lastEnd, false) && lastEnd <= e.end
    requires e.hash in dict ==> dict[e.hash].start == e.start && dict[e.hash].end == e.end
    ensures RoomFor(e, es, cut, order, dict, false)
  {
    var kept := es[cut..];
    FitsBehind(kept, e);
    forall i | cut <= i < |es|
      ensures !Conflict(es[i], e)
    {
      assert kept[i - cut] == es[i] && (kept + [e])[i - cut] == es[i] && (kept + [e])[|kept|] == e;
    }
    StartMore(e, es);
  }

  /** The two checks for a new build. */
  method DropOldBuild(e: Line, ghost es: seq<Line>, ghost cut0: nat, order0: seq<string>, dict0: map<string, Target>,
                      lastEnd: int, showAll: bool)
      returns (ghost cut: nat, order: seq<string>, dict: map<string, Target>)
    requires e.Entry? && ReadSoFar(es, cut0, order0, dict0, lastEnd, showAll)
    ensures RoomFor(e, es, cut, order, dict, showAll)
  {
    order, dict, cut := order0, dict0, cut0;
    if !showAll && e.end < lastEnd {
      StartOver(e, es, if es == [] then 0 else |es| - 1);
      return |es|, [], map[];
    }
    if e.hash in dict && !showAll && (dict[e.hash].start != e.start || dict[e.hash].end != e.end) {
      ghost var k := FirstIndex(es, cut, e.hash);
      StartOver(e, es, k);
      return |es|, [], map[];
    }
    if !showAll {
      GoOn(e, es, cut, order, dict, lastEnd);
    }
  }

  lemma FirstIndex(es: seq<Line>, cut: nat, hash: string) returns (k: nat)
    requires AllEntries(es) && cut <= |es| && Has(es[cut..], hash)
    ensures cut <= k < |es| && es[k] == FirstOf(es[cut..], hash)
  {
    var kept := es[cut..];
    var f := FirstOf(kept, hash);
    var i :| 0 <= i < |kept| && kept[i] == f;
    k := cut + i;
  }

  lemma KeptMore(es: seq<Line>, e: Line, cut: nat)
    requires AllEntries(es) && e.Entry? && cut <= |es|
    ensures AllEntries(es + [e]) && (es + [e])[cut..] == es[cut..] + [e] && LastEnd(es + [e], e.end)
  {
  }

  lemma Appended(e: Line, es: seq<Line>, cut: nat, order: seq<string>, dict: map<string, Target>, showAll: bool)
    requires e.Entry? && RoomFor(e, es, cut, order, dict, showAll)
    ensures e.hash in dict ==>
      ReadSoFar(es + [e], cut, order, dict[e.hash := dict[e.hash].(names := dict[e.hash].names + [e.name])], e.end,
                showAll)
    ensures e.hash !in dict ==>
      ReadSoFar(es + [e], cut, order + [e.hash], dict[e.hash := Target(e.start, e.end, [e.name])], e.end, showAll)
  {
    KeptMore(es, e, cut);
    if e.hash in dict {
      HoldsAnother(order, dict, es[cut..], e);
    } else {
      HoldsFirst(order, dict, es[cut..], e);
    }
  }

  /** One entry read by the loop. */
  method ReadEntry(e: Line, ghost es: seq<Line>, ghost cut0: nat, order0: seq<string>, dict0: map<string, Target>,
                   lastEnd: int, showAll: bool)
      returns (ghost cut: nat, order: seq<string>, dict: map<string, Target>)
    requires e.Entry? && ReadSoFar(es, cut0, order0, dict0, lastEnd, showAll)
    ensures ReadSoFar(es + [e], cut, order, dict, e.end, showAll)
  {
    cut, order, dict := DropOldBuild(e, es, cut0, order0, dict0, lastEnd, showAll);
    Appended(e, es, cut, order, dict, showAll);
    if e.hash in dict {
      dict := dict[e.hash := dict[e.hash].(names := dict[e.hash].names + [e.name])];
    } else {
      order, dict := order + [e.hash], dict[e.hash := Target(e.start, e.end, [e.name])];
    }
  }

  lemma EntriesMore(lines: seq<Line>, k: nat)
    requires k < |lines|
    ensures Entries(lines[..k + 1]) == if lines[k].Entry? then Entries(lines[..k]) + [lines[k]] else Entries(lines[..k])
  {
    assert lines[..k + 1][..k] == lines[..k];
  }

  /** The dictionary's targets in order. */
  function Values(order: seq<string>, dict: map<string, Target>): seq<Target> {
    seq(|order|, i requires 0 <= i < |order| => if order[i] in dict then dict[order[i]] else Target(0, 0, []))
  }

  lemma ValuesAre(order: seq<string>, dict: map<string, Target>, es: seq<Line>)
    requires AllEntries(es) && Holds(order, dict, es)
    ensures Values(order, dict) == Groups(es)
  {
  }

  const HEADER := "# ninja log v5\n"

  /** ReadTargets: the groups of all well-formed lines, or without showAll of those from where the last build starts.
      These are one build, and what is thrown away ends with a conflict. */
  method ReadTargets(header: string, lines: seq<Line>, showAll: bool) returns (r: Result<seq<Target>>)
    ensures r.Ok? <==> header == HEADER && NotANumber !in lines
    ensures r.Ok? ==>
      var es := Entries(lines);
      var cut := StartOf(es, showAll);
      && cut <= |es| && (cut == |es| ==> es == []) && r.value == Groups(es[cut..])
      && (!showAll ==> OneBuild(es[cut..]))
      && (cut > 0 ==> Clashes(es[..cut], BuildStart(es[..cut]), es[cut]))
  {
    if header != HEADER {
      return Err("unrecognized ninja log version");
    }
    var order: seq<string>, dict, lastEnd := [], map[], 0;
    ghost var cut: nat := 0;
    for k := 0 to |lines|
      invariant NotANumber !in lines[..k]
      invariant ReadSoFar(Entries(lines[..k]), cut, order, dict, lastEnd, showAll)
    {
      EntriesMore(lines, k);
      if lines[k].NotANumber? {
        return Err("invalid literal");
      }
      if lines[k].Entry? {
        cut, order, dict := ReadEntry(lines[k], Entries(lines[..k]), cut, order, dict, lastEnd, showAll);
        lastEnd := lines[k].end;
      }
    }
    assert lines[..|lines|] == lines;
    BuildStartIs(Entries(lines));
    ValuesAre(order, dict, Entries(lines)[cut..]);
    r := Ok(Values(order, dict));
  }

  // --- Nothing is lost -----------------------------------------------------------------------------------------------

  /** All names of the targets. */
  function Flat(ts: seq<Target>): seq<string> {
    if ts == [] then [] else Flat(ts[..|ts| - 1]) + ts[|ts| - 1].names
  }

  function Names(es: seq<Line>): seq<string>
    requires AllEntries(es)
  {
    seq(|es|, i requires 0 <= i < |es| => es[i].name)
  }

  lemma {:induction false} FlatMore(a: seq<Target>, b: seq<Target>, i: nat, name: string)
    requires |a| == |b| && i < |a| && (forall j :: 0 <= j < |a| && j != i ==> a[j] == b[j])
        && b[i].names == a[i].names + [name]
    ensures multiset(Flat(b)) == multiset(Flat(a)) + multiset{name}
  {
    if i == |a| - 1 {
      assert a[..i] == b[..i];
      assert Flat(b) == Flat(a) + [name];
    } else {
      FlatMore(a[..|a| - 1], b[..|b| - 1], i, name);
    }
  }

  lemma GroupsPushed(es: seq<Line>, e: Line)
    requires AllEntries(es) && e.Entry? && e.hash !in Commands(es)
    ensures AllEntries(es + [e]) && Groups(es + [e]) == Groups(es) + [Target(e.start, e.end, [e.name])]
  {
    AddEntry(es, e);
    var a, b := Groups(es), Groups(es + [e]);
    assert |b| == |a| + 1 && forall i :: 0 <= i < |a| ==> b[i] == a[i];
  }

  lemma GroupExtended(es: seq<Line>, e: Line) returns (i: nat)
    requires AllEntries(es) && e.Entry? && e.hash in Commands(es)
    ensures AllEntries(es + [e]) && i < |Groups(es)| == |Groups(es + [e])|
    ensures forall j :: 0 <= j < |Groups(es)| && j != i ==> Groups(es + [e])[j] == Groups(es)[j]
    ensures Groups(es + [e])[i].names == Groups(es)[i].names + [e.name]
  {
    AddEntry(es, e);
    var commands := Commands(es);
    i :| 0 <= i < |commands| && commands[i] == e.hash;
  }

  lemma GroupsMore(es: seq<Line>, e: Line)
    requires AllEntries(es) && e.Entry?
    ensures AllEntries(es + [e]) && multiset(Flat(Groups(es + [e]))) == multiset(Flat(Groups(es))) + multiset{e.name}
  {
    if e.hash in Commands(es) {
      var i := GroupExtended(es, e);
      FlatMore(Groups(es), Groups(es + [e]), i, e.name);
    } else {
      GroupsPushed(es, e);
      FlatPushed(Groups(es), Target(e.start, e.end, [e.name]));
    }
  }

  lemma FlatPushed(ts: seq<Target>, t: Target)
    ensures Flat(ts + [t]) == Flat(ts) + t.names
  {
    assert (ts + [t])[..|ts|] == ts;
  }

  lemma NamesMore(es: seq<Line>)
    requires AllEntries(es) && |es| > 0
    ensures es == es[..|es| - 1] + [es[|es| - 1]]
    ensures multiset(Names(es)) == multiset(Names(es[..|es| - 1])) + multiset{es[|es| - 1].name}
  {
    assert Names(es) == Names(es[..|es| - 1]) + [es[|es| - 1].name];
  }

  /** Every entry puts its name into exactly one target, as often as it was logged. */
  lemma {:induction false} AllNamesKept(es: seq<Line>)
    requires AllEntries(es)
    ensures multiset(Flat(Groups(es))) == multiset(Names(es))
  {
    if es != [] {
      var front, last := es[..|es| - 1], es[|es| - 1];
      AllNamesKept(front);
      NamesMore(es);
      GroupsMore(front, last);
    }
  }
}
