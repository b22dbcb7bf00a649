/** What the block store promises over whole runs. */
module BlockFileRuns {
  import opened Arith
  import opened BlockFiles

  /** Nothing has started; destination paths hold the initial blocks. Stale temp files may lie around. */
  ghost predicate Start(c: Config, s: Sys) {
    && WellNamed(c) && |s.ws| == |c.writers| && |s.rs| == |c.readers|
    && (forall i :: 0 <= i < |s.ws| ==> s.ws[i] == Checking)
    && (forall j :: 0 <= j < |s.rs| ==> s.rs[j] == Ready)
    && (forall p :: p in s.dir ==> s.dir[p] in s.files)
    && (forall p :: p in s.dir && !IsTemp(c, p) ==> p in c.initial && s.files[s.dir[p]] == c.initial[p])
    && (forall p :: p in c.initial ==> p in s.dir)
  }

  ghost predicate CleanStart(c: Config, s: Sys) {
    Start(c, s) && forall p :: p in s.dir ==> !IsTemp(c, p)
  }

  ghost predicate IsRun(c: Config, ss: seq<Sys>, acts: seq<Action>) {
    && |ss| == |acts| + 1 && Start(c, ss[0])
    && forall n :: 0 <= n < |acts| ==> Next(c, ss[n], ss[n + 1], acts[n])
  }

  lemma {:induction false} RunInv(c: Config, ss: seq<Sys>, acts: seq<Action>, n: nat)
    requires IsRun(c, ss, acts) && n < |ss|
    ensures Inv(c, ss[n])
  {
    if n > 0 {
      RunInv(c, ss, acts, n - 1);
      NextInv(c, ss[n - 1], ss[n], acts[n - 1]);
    }
  }

  lemma Extend(c: Config, ss: seq<Sys>, acts: seq<Action>, s: Sys, a: Action)
    requires IsRun(c, ss, acts) && Next(c, ss[|acts|], s, a)
    ensures IsRun(c, ss + [s], acts + [a])
  {
  }

  // --- Whole blocks only ---------------------------------------------------------------------------------------------

  /** In every state of every interleaving a destination path is absent or holds one whole block that nobody is writing,
      and a load that returned 0 filled its buffer from the front of a single block of its path. */
  lemma WholeBlocks(c: Config, ss: seq<Sys>, acts: seq<Action>, n: nat)
    requires IsRun(c, ss, acts) && n < |ss|
    ensures forall p :: p in ss[n].dir && !IsTemp(c, p) ==>
      ss[n].dir[p] in ss[n].files && Settled(ss[n], ss[n].dir[p]) && Block(c, p, ss[n].files[ss[n].dir[p]])
    ensures |ss[n].rs| == |c.readers|
    ensures forall j :: 0 <= j < |c.readers| && ss[n].rs[j].Loaded? && ss[n].rs[j].err == 0 ==>
      |ss[n].rs[j].buf| == c.readers[j].size && exists b :: Block(c, c.readers[j].path, b) && ss[n].rs[j].buf <= b
  {
    RunInv(c, ss, acts, n);
    forall p | p in ss[n].dir && !IsTemp(c, p)
      ensures ss[n].dir[p] in ss[n].files && Settled(ss[n], ss[n].dir[p]) && Block(c, p, ss[n].files[ss[n].dir[p]])
    {
      assert PathOk(c, ss[n], p);
    }
    forall j | 0 <= j < |c.readers| && ss[n].rs[j].Loaded? && ss[n].rs[j].err == 0
      ensures |ss[n].rs[j].buf| == c.readers[j].size && exists b ::
          Block(c, c.readers[j].path, b) && ss[n].rs[j].buf <= b
    {
      assert ReaderOk(c, ss[n], j);
    }
  }

  /** With a buffer of the block size the load holds exactly one writer's (or the initial) block, never a mixture. */
  lemma ExactBlock(c: Config, ss: seq<Sys>, acts: seq<Action>, n: nat, j: nat)
    requires IsRun(c, ss, acts) && n < |ss| && j < |c.readers|
    requires forall b :: Block(c, c.readers[j].path, b) ==> |b| == c.readers[j].size
    ensures |ss[n].rs| == |c.readers|
    ensures ss[n].rs[j].Loaded? && ss[n].rs[j].err == 0 ==> Block(c, c.readers[j].path, ss[n].rs[j].buf)
  {
    WholeBlocks(c, ss, acts, n);
    if ss[n].rs[j].Loaded? && ss[n].rs[j].err == 0 {
      var b :| Block(c, c.readers[j].path, b) && ss[n].rs[j].buf <= b;
      assert ss[n].rs[j].buf == b;
    }
  }

  lemma StaysSettled(c: Config, s: Sys, s': Sys, a: Action, ino: Inode)
    requires |s.ws| == |c.writers| && |s.rs| == |c.readers| && Next(c, s, s', a) && ino in s.files && Settled(s, ino)
    ensures ino in s'.files && s'.files[ino] == s.files[ino] && Settled(s', ino)
  {
  }

  lemma {:induction false} SettledIsFrozen(c: Config, ss: seq<Sys>, acts: seq<Action>, m: nat, n: nat, ino: Inode)
    requires IsRun(c, ss, acts) && m <= n < |ss| && ino in ss[m].files && Settled(ss[m], ino)
    ensures ino in ss[n].files && ss[n].files[ino] == ss[m].files[ino] && Settled(ss[n], ino)
    decreases n
  {
    if n > m {
      SettledIsFrozen(c, ss, acts, m, n - 1, ino);
      RunInv(c, ss, acts, n - 1);
      StaysSettled(c, ss[n - 1], ss[n], acts[n - 1], ino);
    }
  }

  /** Once a file is published it is never modified again, even after it has been replaced or removed. */
  lemma PublishedIsFrozen(c: Config, ss: seq<Sys>, acts: seq<Action>, m: nat, n: nat, p: Path)
    requires IsRun(c, ss, acts) && m <= n < |ss| && p in ss[m].dir && !IsTemp(c, p)
    ensures ss[m].dir[p] in ss[m].files && ss[m].dir[p] in ss[n].files
    ensures ss[n].files[ss[m].dir[p]] == ss[m].files[ss[m].dir[p]] && Settled(ss[n], ss[m].dir[p])
  {
    WholeBlocks(c, ss, acts, m);
    SettledIsFrozen(c, ss, acts, m, n, ss[m].dir[p]);
  }

  // --- Nothing is removed --------------------------------------------------------------------------------------------

  /** No block of the reader's path is shorter than its buffer. */
  ghost predicate Fits(c: Config, j: nat)
    requires j < |c.readers|
  {
    forall b :: Block(c, c.readers[j].path, b) ==> |b| >= c.readers[j].size
  }

  lemma NoShortRead(c: Config, s: Sys, s': Sys, a: Action, j: nat)
    requires Inv(c, s) && Next(c, s, s', a) && j < |c.readers| && Fits(c, j) && !s.rs[j].Removing?
    ensures |s'.rs| == |c.readers| && !s'.rs[j].Removing?
  {
    assert ReaderOk(c, s, j);
  }

  lemma {:induction false} NeverRemoving(c: Config, ss: seq<Sys>, acts: seq<Action>, n: nat, j: nat)
    requires IsRun(c, ss, acts) && n < |ss| && j < |c.readers| && Fits(c, j)
    ensures |ss[n].rs| == |c.readers| && !ss[n].rs[j].Removing?
  {
    if n > 0 {
      NeverRemoving(c, ss, acts, n - 1, j);
      RunInv(c, ss, acts, n - 1);
      NoShortRead(c, ss[n - 1], ss[n], acts[n - 1], j);
    }
  }

  /** A run from a clean start that ends with reader j unlinking a destination that is there. */
  ghost predicate Removes(c: Config, ss: seq<Sys>, acts: seq<Action>, j: nat) {
    && IsRun(c, ss, acts) && |acts| > 0 && acts[|acts| - 1] == UnlinkSrc(j)
    && j < |c.readers| && c.readers[j].path in ss[|acts| - 1].dir && c.readers[j].path !in ss[|acts|].dir
  }

  /** From any clean start: reader j can come to remove a destination if and only if its buffer is larger than some
      block of its path. */
  lemma RemovalIff(c: Config, s: Sys, j: nat)
    requires CleanStart(c, s) && j < |c.readers|
    ensures (exists ss, acts :: Removes(c, ss, acts, j) && ss[0] == s) <==> !Fits(c, j)
  {
    if Fits(c, j) {
      forall ss, acts
        ensures !(Removes(c, ss, acts, j) && ss[0] == s)
      {
        if Removes(c, ss, acts, j) {
          NeverRemoving(c, ss, acts, |acts| - 1, j);
        }
      }
    } else {
      var b :| Block(c, c.readers[j].path, b) && |b| < c.readers[j].size;
      var ss, acts := RemovingRun(c, s, j, b);
    }
  }

  /** The offending run: the short block is published (unless it is there already), read to its end and unlinked. */
  lemma RemovingRun(c: Config, s: Sys, j: nat, b: Bytes) returns (ss: seq<Sys>, acts: seq<Action>)
    requires CleanStart(c, s) && j < |c.readers| && Block(c, c.readers[j].path, b) && |b| < c.readers[j].size
    ensures Removes(c, ss, acts, j) && ss[0] == s
  {
    var p := c.readers[j].path;
    ss, acts := [s], [];
    if !(p in c.initial && c.initial[p] == b) {
      var i :| 0 <= i < |c.writers| && c.writers[i].dest == p && c.writers[i].data == b;
      ss, acts := PublishingRun(c, s, i);
    }
    ss, acts := ReadAndRemove(c, ss, acts, j, b);
  }

  lemma ReadAndRemove(c: Config, ss0: seq<Sys>, acts0: seq<Action>, j: nat, b: Bytes)
      returns (ss: seq<Sys>, acts: seq<Action>)
    requires IsRun(c, ss0, acts0) && j < |c.readers| && |b| < c.readers[j].size
    requires var t := ss0[|acts0|];
             && |t.ws| == |c.writers| && |t.rs| == |c.readers| && t.rs[j] == Ready
             && c.readers[j].path in t.dir && t.dir[c.readers[j].path] in t.files
                && t.files[t.dir[c.readers[j].path]] == b
    ensures Removes(c, ss, acts, j) && ss[0] == ss0[0]
  {
    var p := c.readers[j].path;
    ss, acts := ReadToEnd(c, ss0, acts0, j, b);
    var t := ss[|acts|];
    var t3 := t.(rs := t.rs[j := Removing]);
    var t4 := t.(rs := t.rs[j := Loaded(EIO, [])], dir := t.dir - {p});
    Extend(c, ss, acts, t3, ReadShort(j));
    ss, acts := ss + [t3], acts + [ReadShort(j)];
    Extend(c, ss, acts, t4, UnlinkSrc(j));
    ss, acts := ss + [t4], acts + [UnlinkSrc(j)];
  }

  lemma ReadToEnd(c: Config, ss0: seq<Sys>, acts0: seq<Action>, j: nat, b: Bytes)
      returns (ss: seq<Sys>, acts: seq<Action>)
    requires IsRun(c, ss0, acts0) && j < |c.readers| && |b| < c.readers[j].size
    requires var t := ss0[|acts0|];
             && |t.ws| == |c.writers| && |t.rs| == |c.readers| && t.rs[j] == Ready
             && c.readers[j].path in t.dir && t.dir[c.readers[j].path] in t.files
                && t.files[t.dir[c.readers[j].path]] == b
    ensures IsRun(c, ss, acts) && ss[0] == ss0[0]
    ensures var t := ss0[|acts0|]; ss[|acts|] == t.(rs := t.rs[j := Reading(t.dir[c.readers[j].path], b)])
  {
    var t := ss0[|acts0|];
    var ino := t.dir[c.readers[j].path];
    var t1 := t.(rs := t.rs[j := Reading(ino, [])]);
    var t2 := t.(rs := t.rs[j := Reading(ino, b)]);
    assert [] + b[0..0 + |b|] == b;
    Extend(c, ss0, acts0, t1, OpenSrc(j));
    ss, acts := ss0 + [t1], acts0 + [OpenSrc(j)];
    Extend(c, ss, acts, t2, ReadBytes(j, |b|));
    ss, acts := ss + [t2], acts + [ReadBytes(j, |b|)];
  }

  /** Store i alone, from its check to its rename. */
  lemma PublishingRun(c: Config, s: Sys, i: nat) returns (ss: seq<Sys>, acts: seq<Action>)
    requires CleanStart(c, s) && i < |c.writers|
    ensures IsRun(c, ss, acts) && ss[0] == s
    ensures var t := ss[|acts|];
            && |t.ws| == |s.ws| && t.rs == s.rs && c.writers[i].dest in t.dir && t.dir[c.writers[i].dest] in t.files
            && t.files[t.dir[c.writers[i].dest]] == c.writers[i].data
  {
    var w := c.writers[i];
    ss, acts := WrittenRun(c, s, i);
    var t := ss[|acts|];
    var ino := t.ws[i].ino;
    var t1 := t.(ws := t.ws[i := Closing(ino)]);
    var t2 := t.(ws := t.ws[i := Renaming(ino)]);
    var t3 := t.(ws := t.ws[i := Stored(0)], dir := (t.dir - {w.tmp})[w.dest := ino]);
    Extend(c, ss, acts, t1, WriteOk(i));
    ss, acts := ss + [t1], acts + [WriteOk(i)];
    Extend(c, ss, acts, t2, CloseOk(i));
    ss, acts := ss + [t2], acts + [CloseOk(i)];
    Extend(c, ss, acts, t3, RenameOk(i));
    ss, acts := ss + [t3], acts + [RenameOk(i)];
  }

  lemma WrittenRun(c: Config, s: Sys, i: nat) returns (ss: seq<Sys>, acts: seq<Action>)
    requires CleanStart(c, s) && i < |c.writers|
    ensures IsRun(c, ss, acts) && ss[0] == s
    ensures var t, w := ss[|acts|], c.writers[i];
            && |t.ws| == |s.ws| && t.rs == s.rs && t.ws[i].Writing? && t.ws[i].written == |w.data|
            && w.tmp in t.dir && t.dir[w.tmp] == t.ws[i].ino && t.ws[i].ino in t.files && t.files[t.ws[i].ino] == w.data
  {
    var w := c.writers[i];
    assert IsTemp(c, w.tmp);
    var ino := AboveAll(s.files.Keys);
    var s1 := s.(ws := s.ws[i := Opening]);
    var s2 := s.(ws := s.ws[i := Writing(ino, 0)], dir := s.dir[w.tmp := ino], files := s.files[ino := []]);
    var s3 := s.(ws := s.ws[i := Writing(ino, |w.data|)], dir := s.dir[w.tmp := ino], files := s.files[ino := w.data]);
    assert [] + w.data[0..0 + |w.data|] == w.data;
    Extend(c, [s], [], s1, Missing(i));
    ss, acts := [s, s1], [Missing(i)];
    Extend(c, ss, acts, s2, OpenTmp(i, ino));
    ss, acts := ss + [s2], acts + [OpenTmp(i, ino)];
    Extend(c, ss, acts, s3, WriteBytes(i, |w.data|));
    ss, acts := ss + [s3], acts + [WriteBytes(i, |w.data|)];
  }

  // --- Which file is removed -----------------------------------------------------------------------------------------

  /** A store publishes its block at p. */
  predicate Publishes(c: Config, a: Action, p: Path) {
    a.RenameOk? && a.i < |c.writers| && c.writers[a.i].dest == p
  }

  ghost predicate ReplacedWithin(c: Config, acts: seq<Action>, p: Path, m: nat, n: nat)
    requires m <= n <= |acts|
  {
    exists k :: m <= k < n && Publishes(c, acts[k], p)
  }

  lemma PublishStep(c: Config, s: Sys, s': Sys, a: Action, p: Path, ino: Inode)
    requires Inv(c, s) && Next(c, s, s', a) && Settled(s, ino) && Publishes(c, a, p)
    ensures p in s'.dir && s'.dir[p] != ino
  {
    assert WriterOk(c, s, a.i);
  }

  lemma OtherStep(c: Config, s: Sys, s': Sys, a: Action, p: Path)
    requires Next(c, s, s', a) && !IsTemp(c, p) && !Publishes(c, a, p) && p in s'.dir
    ensures p in s.dir && s'.dir[p] == s.dir[p]
  {
    if a.OpenTmp? {
      assert IsTemp(c, c.writers[a.i].tmp);
    }
  }

  /** The file at a destination changes only by publishing, and then it is not one that was there before. */
  lemma EntryStep(c: Config, ss: seq<Sys>, acts: seq<Action>, p: Path, m: nat, n: nat)
    requires IsRun(c, ss, acts) && m <= n < |acts| && !IsTemp(c, p) && p in ss[m].dir
    ensures Publishes(c, acts[n], p) ==> p in ss[n + 1].dir && ss[n + 1].dir[p] != ss[m].dir[p]
    ensures !Publishes(c, acts[n], p) && p in ss[n + 1].dir ==> p in ss[n].dir && ss[n + 1].dir[p] == ss[n].dir[p]
  {
    RunInv(c, ss, acts, n);
    assert Next(c, ss[n], ss[n + 1], acts[n]);
    if Publishes(c, acts[n], p) {
      PublishedIsFrozen(c, ss, acts, m, n, p);
      PublishStep(c, ss[n], ss[n + 1], acts[n], p, ss[m].dir[p]);
    } else if p in ss[n + 1].dir {
      OtherStep(c, ss[n], ss[n + 1], acts[n], p);
    }
  }

  /** An entry that changes only at marked steps, and then away from what it was at m, is what it was unless marked. */
  lemma {:induction false} LastEntry(dirs: seq<map<Path, Inode>>, marked: seq<bool>, p: Path, m: nat, n: nat)
    requires |dirs| == |marked| + 1 && m <= n <= |marked| && p in dirs[m]
    requires forall k {:trigger marked[k]} :: m <= k < n ==>
      if marked[k] then p in dirs[k + 1] && dirs[k + 1][p] != dirs[m][p]
      else p in dirs[k + 1] ==> p in dirs[k] && dirs[k + 1][p] == dirs[k][p]
    ensures p in dirs[n] ==> (dirs[n][p] == dirs[m][p] <==> true !in marked[m..n])
    decreases n
  {
    if n > m {
      LastEntry(dirs, marked, p, m, n - 1);
      assert marked[m..n] == marked[m..n - 1] + [marked[n - 1]];
    }
  }

  lemma EntryHistory(c: Config, ss: seq<Sys>, acts: seq<Action>, p: Path, m: nat, n: nat)
    requires IsRun(c, ss, acts) && m <= n <= |acts| && !IsTemp(c, p) && p in ss[m].dir
    ensures p in ss[n].dir ==> (ss[n].dir[p] == ss[m].dir[p] <==> !ReplacedWithin(c, acts, p, m, n))
  {
    var dirs := seq(|ss|, k requires 0 <= k < |ss| => ss[k].dir);
    var marked := seq(|acts|, k requires 0 <= k < |acts| => Publishes(c, acts[k], p));
    forall k {:trigger marked[k]} | m <= k < n
      ensures if marked[k] then p in dirs[k + 1] && dirs[k + 1][p] != dirs[m][p]
              else p in dirs[k + 1] ==> p in dirs[k] && dirs[k + 1][p] == dirs[k][p]
    {
      EntryStep(c, ss, acts, p, m, k);
    }
    LastEntry(dirs, marked, p, m, n);
    assert ReplacedWithin(c, acts, p, m, n) <==> true in marked[m..n] by {
      assert forall k :: m <= k < n ==> marked[m..n][k - m] == Publishes(c, acts[k], p);
    }
  }

  /** A reader that removes its source removes the file it has read exactly if nobody published there since it opened
      it. */
  lemma RemovedIsRead(c: Config, ss: seq<Sys>, acts: seq<Action>, j: nat, m: nat, n: nat)
    requires IsRun(c, ss, acts) && m < n < |acts| && acts[m] == OpenSrc(j) && acts[n] == UnlinkSrc(j)
    ensures j < |c.readers| && c.readers[j].path in ss[m].dir
        && ss[m + 1].rs[j] == Reading(ss[m].dir[c.readers[j].path], [])
    ensures var p := c.readers[j].path;
            p in ss[n].dir ==> (ss[n].dir[p] == ss[m].dir[p] <==> !ReplacedWithin(c, acts, p, m, n))
  {
    RunInv(c, ss, acts, m);
    assert Next(c, ss[m], ss[m + 1], acts[m]);
    EntryHistory(c, ss, acts, c.readers[j].path, m, n);
  }

  /** Destinations are never dropped and a store that returned 0 has its destination in place. */
  ghost predicate Kept(c: Config, s: Sys) {
    && |s.ws| == |c.writers| && |s.rs| == |c.readers|
    && forall i :: 0 <= i < |s.ws| && s.ws[i] == Stored(0) ==> c.writers[i].dest in s.dir
  }

  lemma DestsStay(c: Config, s: Sys, s': Sys, a: Action)
    requires Next(c, s, s', a) && forall j :: 0 <= j < |s.rs| ==> !s.rs[j].Removing?
    ensures forall p :: p in s.dir && !IsTemp(c, p) ==> p in s'.dir
  {
    if a.RenameOk? || a.UnlinkTmp? {
      assert IsTemp(c, c.writers[a.i].tmp);
    }
  }

  lemma KeptStep(c: Config, s: Sys, s': Sys, a: Action)
    requires Inv(c, s) && Kept(c, s) && Next(c, s, s', a)
    requires forall p :: p in s.dir && !IsTemp(c, p) ==> p in s'.dir
    ensures Kept(c, s')
  {
    forall i | 0 <= i < |s'.ws| && s'.ws[i] == Stored(0)
      ensures c.writers[i].dest in s'.dir
    {
      assert WriterOk(c, s, i);
      StoredHasDest(c, s, s', a, i);
    }
  }

  lemma StoredHasDest(c: Config, s: Sys, s': Sys, a: Action, i: nat)
    requires WellNamed(c) && Kept(c, s) && Next(c, s, s', a) && i < |s.ws| == |s'.ws| && s'.ws[i] == Stored(0)
    requires WriterOk(c, s, i)
    requires forall p :: p in s.dir && !IsTemp(c, p) ==> p in s'.dir
    ensures c.writers[i].dest in s'.dir
  {
    assert !IsTemp(c, c.writers[i].dest);
  }

  /** When no buffer exceeds a block, a block stays present from the moment its store has returned 0. */
  lemma {:induction false} StoredStays(c: Config, ss: seq<Sys>, acts: seq<Action>, n: nat)
    requires IsRun(c, ss, acts) && n < |ss| && forall j :: 0 <= j < |c.readers| ==> Fits(c, j)
    ensures Kept(c, ss[n])
    ensures forall m, p :: 0 <= m <= n && p in ss[m].dir && !IsTemp(c, p) ==> p in ss[n].dir
  {
    if n > 0 {
      StoredStays(c, ss, acts, n - 1);
      RunInv(c, ss, acts, n - 1);
      var s := ss[n - 1];
      forall j | 0 <= j < |s.rs|
        ensures !s.rs[j].Removing?
      {
        NeverRemoving(c, ss, acts, n - 1, j);
      }
      DestsStay(c, ss[n - 1], ss[n], acts[n - 1]);
      KeptStep(c, ss[n - 1], ss[n], acts[n - 1]);
    }
  }

  // --- Temp files ----------------------------------------------------------------------------------------------------

  /** No process ever touches another one's temp file. */
  lemma TempUntouched(c: Config, s: Sys, s': Sys, a: Action, i: nat)
    requires Inv(c, s) && Next(c, s, s', a) && i < |s.ws| && Owns(s.ws[i])
    requires s'.ws[i] == s.ws[i]
    ensures c.writers[i].tmp in s.dir && c.writers[i].tmp in s'.dir
        && s'.dir[c.writers[i].tmp] == s.dir[c.writers[i].tmp] == s.ws[i].ino
    ensures s.ws[i].ino in s.files && s.ws[i].ino in s'.files
        && (!a.WriteBytes? || a.i != i ==> s'.files[s.ws[i].ino] == s.files[s.ws[i].ino])
  {
    assert WriterOk(c, s, i);
    NextInv(c, s, s', a);
    assert WriterOk(c, s', i);
    if a.WriteBytes? && a.i != i {
      TempsDiffer(c, s, i, a.i);
    }
  }

  /** Every temp path present belongs to a store in progress. */
  ghost predicate NoLitter(c: Config, s: Sys) {
    && |s.ws| == |c.writers|
    && forall p :: p in s.dir && IsTemp(c, p) ==> exists i :: 0 <= i < |s.ws| && Owns(s.ws[i]) && c.writers[i].tmp == p
  }

  lemma LitterStep(c: Config, s: Sys, s': Sys, a: Action)
    requires Inv(c, s) && NoLitter(c, s) && Next(c, s, s', a) && !a.UnlinkTmpFails?
    ensures NoLitter(c, s')
  {
    forall p | p in s'.dir && IsTemp(c, p)
      ensures exists i :: 0 <= i < |s'.ws| && Owns(s'.ws[i]) && c.writers[i].tmp == p
    {
      if a.OpenTmp? && c.writers[a.i].tmp == p {
        assert Owns(s'.ws[a.i]);
      } else {
        assert p in s.dir;
        var i :| 0 <= i < |s.ws| && Owns(s.ws[i]) && c.writers[i].tmp == p;
        StillOwns(c, s, s', a, i);
      }
    }
  }

  lemma StillOwns(c: Config, s: Sys, s': Sys, a: Action, i: nat)
    requires WellNamed(c) && |s.ws| == |c.writers| && |s.rs| == |c.readers| && Next(c, s, s', a) && !a.UnlinkTmpFails?
    requires i < |s.ws| && Owns(s.ws[i]) && c.writers[i].tmp in s'.dir
    ensures |s'.ws| == |s.ws| && Owns(s'.ws[i])
  {
    assert IsTemp(c, c.writers[i].tmp);
  }

  /** From a clean start, as long as cleanup unlinks succeed, every finished store has left no temp file behind: the
      temp files present are those of stores in progress. */
  lemma {:induction false} NoTempsLeft(c: Config, ss: seq<Sys>, acts: seq<Action>, n: nat)
    requires IsRun(c, ss, acts) && CleanStart(c, ss[0]) && n < |ss|
    requires forall m :: 0 <= m < |acts| ==> !acts[m].UnlinkTmpFails?
    ensures NoLitter(c, ss[n])
  {
    if n > 0 {
      NoTempsLeft(c, ss, acts, n - 1);
      RunInv(c, ss, acts, n - 1);
      LitterStep(c, ss[n - 1], ss[n], acts[n - 1]);
    }
  }
}
