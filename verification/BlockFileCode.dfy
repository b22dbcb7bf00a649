/**
 The store and load routines as code. Between any two system calls other threads and processes may take any number of
 steps of their own; `Interfere` stands for them.
 */
module BlockFileCode {
  import opened Arith
  import opened BlockFiles
  import opened BlockFileRuns

  ghost predicate AllFit(c: Config) {
    forall j :: 0 <= j < |c.readers| ==> Fits(c, j)
  }

  /** What holds between any two steps. */
  ghost predicate Good(c: Config, s: Sys) {
    && Inv(c, s)
    && (AllFit(c) ==> Kept(c, s) && forall j :: 0 <= j < |s.rs| ==> !s.rs[j].Removing?)
  }

  /** No destination has gone. */
  ghost predicate DestsKept(c: Config, s: Sys, s': Sys) {
    AllFit(c) ==> forall p :: p in s.dir && !IsTemp(c, p) ==> p in s'.dir
  }

  /** The thread's own stores and loads stand where they stood. */
  ghost predicate SameOwn(s: Sys, s': Sys, stores: set<nat>, loads: set<nat>) {
    && |s'.ws| == |s.ws| && |s'.rs| == |s.rs|
    && (forall i :: i in stores && i < |s.ws| ==> s'.ws[i] == s.ws[i])
    && (forall j :: j in loads && j < |s.rs| ==> s'.rs[j] == s.rs[j])
  }

  /** Only store i has moved. */
  ghost predicate OnlyStore(s: Sys, s': Sys, i: nat) {
    |s'.ws| == |s.ws| && i < |s.ws| && (forall k :: 0 <= k < |s.ws| && k != i ==> s'.ws[k] == s.ws[k]) && s'.rs == s.rs
  }

  ghost predicate OnlyLoad(s: Sys, s': Sys, j: nat) {
    |s'.rs| == |s.rs| && j < |s.rs| && (forall k :: 0 <= k < |s.rs| && k != j ==> s'.rs[k] == s.rs[k]) && s'.ws == s.ws
  }

  /** The load returned 0 and its buffer holds the front of one whole block of its path. */
  ghost predicate HoldsBlock(c: Config, s: Sys, j: nat)
    requires j < |s.rs| == |c.readers|
  {
    && s.rs[j].Loaded? && s.rs[j].err == 0 && |s.rs[j].buf| == c.readers[j].size
    && exists b :: Block(c, c.readers[j].path, b) && s.rs[j].buf <= b
  }

  /** The path is there and holds a whole block of its own. */
  ghost predicate HoldsWhole(c: Config, s: Sys, p: Path) {
    p in s.dir && s.dir[p] in s.files && Block(c, p, s.files[s.dir[p]])
  }

  lemma WholeNow(c: Config, s: Sys, i: nat)
    requires Inv(c, s) && i < |c.writers| && c.writers[i].dest in s.dir
    ensures HoldsWhole(c, s, c.writers[i].dest)
  {
    assert PathOk(c, s, c.writers[i].dest);
  }

  function Span(first: nat, n: nat): (r: set<nat>)
    ensures forall i :: i in r <==> first <= i < first + n
  {
    if n == 0 then {} else Span(first, n - 1) + {first + n - 1}
  }

  lemma StepGood(c: Config, s: Sys, s': Sys, a: Action)
    requires Good(c, s) && Next(c, s, s', a)
    ensures Good(c, s') && DestsKept(c, s, s')
  {
    NextInv(c, s, s', a);
    if AllFit(c) {
      DestsStay(c, s, s', a);
      KeptStep(c, s, s', a);
      forall j | 0 <= j < |s'.rs|
        ensures !s'.rs[j].Removing?
      {
        assert Fits(c, j);
        NoShortRead(c, s, s', a, j);
      }
    }
  }

  /** Whatever steps others take, `Interfere`'s promise covers them. */
  lemma {:induction false} InterferenceSound(c: Config, ss: seq<Sys>, acts: seq<Action>, stores: set<nat>,
                                             loads: set<nat>)
    requires |ss| == |acts| + 1 && Good(c, ss[0])
    requires forall n :: 0 <= n < |acts| ==>
        Next(c, ss[n], ss[n + 1], acts[n]) && SameOwn(ss[n], ss[n + 1], stores, loads)
    ensures Good(c, ss[|acts|]) && DestsKept(c, ss[0], ss[|acts|]) && SameOwn(ss[0], ss[|acts|], stores, loads)
    decreases |acts|
  {
    if |acts| > 0 {
      InterferenceSound(c, ss[..|acts|], acts[..|acts| - 1], stores, loads);
      StepGood(c, ss[|acts| - 1], ss[|acts|], acts[|acts| - 1]);
    }
  }

  class BlockStore {
    const c: Config
    var s: Sys

    constructor (c: Config, s: Sys)
      requires Good(c, s)
      ensures this.c == c && this.s == s
    {
      this.c := c;
      this.s := s;
    }

    /** Other threads and processes run. */
    method Interfere(ghost stores: set<nat>, ghost loads: set<nat>)
      requires Good(c, s)
      modifies this
      ensures Good(c, s) && DestsKept(c, old(s), s) && SameOwn(old(s), s, stores, loads)
    {
    }

    method Errno() returns (e: int)
      ensures e != 0
    {
      e := *;
      if e == 0 {
        e := EIO;
      }
    }

    // --- System calls, each one step of the protocol -----------------------------------------------------------------

    method Access(i: nat) returns (ok: bool)
      requires Good(c, s) && i < |s.ws| && s.ws[i] == Checking
      modifies this
      ensures OnlyStore(old(s), s, i) && s.ws[i] == if ok then Stored(0) else Opening
      ensures ok ==> c.writers[i].dest in s.dir
      ensures Good(c, s) && DestsKept(c, old(s), s)
    {
      ok := c.writers[i].dest in s.dir;
      if * {
        ok := false;
      }
      ghost var before := s;
      s := s.(ws := s.ws[i := if ok then Stored(0) else Opening]);
      StepGood(c, before, s, if ok then Found(i) else Missing(i));
    }

    method EnsureParentDirs(i: nat) returns (err: int)
      requires Good(c, s) && i < |s.ws| && s.ws[i] == Opening
      modifies this
      ensures OnlyStore(old(s), s, i) && s.ws[i] == if err == 0 then Opening else Stored(err)
      ensures Good(c, s) && DestsKept(c, old(s), s)
    {
      err := 0;
      if * {
        err := Errno();
        ghost var before := s;
        s := s.(ws := s.ws[i := Stored(err)]);
        StepGood(c, before, s, NoDirs(i, err));
      }
    }

    /** open with O_CREAT | O_EXCL: fails if the path exists. */
    method OpenExclusive(i: nat) returns (err: int)
      requires Good(c, s) && i < |s.ws| && s.ws[i] == Opening
      modifies this
      ensures OnlyStore(old(s), s, i)
      ensures if err == 0 then s.ws[i].Writing? && s.ws[i].written == 0 && c.writers[i].tmp !in old(s).dir
          else s.ws[i] == Stored(err)
      ensures Good(c, s) && DestsKept(c, old(s), s)
    {
      ghost var before := s;
      err := Errno();
      if c.writers[i].tmp !in s.dir {
        var ino :| ino !in s.files by {
          var n := AboveAll(s.files.Keys);
          assert n !in s.files;
        }
        if * {
          err := 0;
          s := s.(ws := s.ws[i := Writing(ino, 0)], dir := s.dir[c.writers[i].tmp := ino], files := s.files[ino := []]);
          StepGood(c, before, s, OpenTmp(i, ino));
          return;
        }
      }
      s := s.(ws := s.ws[i := Stored(err)]);
      StepGood(c, before, s, OpenTmpFails(i, err));
    }

    /** Part of a write reaches the file. */
    method WriteSome(i: nat, n: nat)
      requires Good(c, s) && i < |s.ws| && s.ws[i].Writing? && s.ws[i].written + n <= |c.writers[i].data|
      modifies this
      ensures OnlyStore(old(s), s, i) && s.ws[i].Writing? && s.ws[i].written == old(s).ws[i].written + n
      ensures Good(c, s) && DestsKept(c, old(s), s)
    {
      ghost var before := s;
      assert WriterOk(c, s, i);
      var w := s.ws[i];
      s := s.(ws := s.ws[i := Writing(w.ino, w.written + n)],
              files := s.files[w.ino := s.files[w.ino] + c.writers[i].data[w.written..w.written + n]]);
      StepGood(c, before, s, WriteBytes(i, n));
    }

    /** One write call: it may stop early or fail; the caller takes anything but the full count as an error. */
    method Write(i: nat, ghost mine: set<nat>) returns (err: int)
      requires Good(c, s) && i < |s.ws| && s.ws[i].Writing? && s.ws[i].written == 0 && i in mine
      modifies this
      ensures Good(c, s) && DestsKept(c, old(s), s) && SameOwn(old(s), s, mine - {i}, {})
      ensures if err == 0 then s.ws[i].Closing? else s.ws[i].Cleaning? && s.ws[i].err == err
    {
      var done := false;
      while !done && s.ws[i].written < |c.writers[i].data|
        invariant Good(c, s) && DestsKept(c, old(s), s) && SameOwn(old(s), s, mine - {i}, {})
        invariant s.ws[i].Writing? && s.ws[i].written <= |c.writers[i].data|
        decreases !done, |c.writers[i].data| - s.ws[i].written
      {
        Interfere(mine, {});
        if * {
          var n :| 0 < n <= |c.writers[i].data| - s.ws[i].written by {
            assert 0 < 1 <= |c.writers[i].data| - s.ws[i].written;
          }
          WriteSome(i, n);
        } else {
          done := true;
        }
      }
      var size := |c.writers[i].data|;
      var written: int := s.ws[i].written;
      err := 0;
      if * {
        written := -1;
      }
      if written < 0 || written != size {
        if written < 0 {
          err := Errno();
        } else {
          err := EIO;
        }
      }
      ghost var before := s;
      s := s.(ws := s.ws[i := if err == 0 then Closing(s.ws[i].ino) else Cleaning(s.ws[i].ino, err)]);
      StepGood(c, before, s, if err == 0 then WriteOk(i) else WriteFails(i, err));
    }

    method Close(i: nat) returns (err: int)
      requires Good(c, s) && i < |s.ws| && s.ws[i].Closing?
      modifies this
      ensures OnlyStore(old(s), s, i)
      ensures if err == 0 then s.ws[i].Renaming? else s.ws[i].Cleaning? && s.ws[i].err == err
      ensures Good(c, s) && DestsKept(c, old(s), s)
    {
      err := 0;
      if * {
        err := Errno();
      }
      ghost var before := s;
      s := s.(ws := s.ws[i := if err == 0 then Renaming(s.ws[i].ino) else Cleaning(s.ws[i].ino, err)]);
      StepGood(c, before, s, if err == 0 then CloseOk(i) else CloseFails(i, err));
    }

    method Rename(i: nat) returns (err: int)
      requires Good(c, s) && i < |s.ws| && s.ws[i].Renaming?
      modifies this
      ensures OnlyStore(old(s), s, i)
      ensures if err == 0 then s.ws[i] == Stored(0) && c.writers[i].dest in s.dir
          else s.ws[i].Cleaning? && s.ws[i].err == err
      ensures Good(c, s) && DestsKept(c, old(s), s)
    {
      err := 0;
      if * {
        err := Errno();
      }
      ghost var before := s;
      assert WriterOk(c, s, i);
      if err == 0 {
        s := s.(ws := s.ws[i := Stored(0)],
                dir := (s.dir - {c.writers[i].tmp})[c.writers[i].dest := s.dir[c.writers[i].tmp]]);
      } else {
        s := s.(ws := s.ws[i := Cleaning(s.ws[i].ino, err)]);
      }
      StepGood(c, before, s, if err == 0 then RenameOk(i) else RenameFails(i, err));
    }

    /** Best effort: the result of the unlink is ignored. */
    method UnlinkTemp(i: nat)
      requires Good(c, s) && i < |s.ws| && s.ws[i].Cleaning?
      modifies this
      ensures OnlyStore(old(s), s, i) && s.ws[i] == Stored(old(s).ws[i].err)
      ensures Good(c, s) && DestsKept(c, old(s), s)
    {
      ghost var before := s;
      if * {
        s := s.(ws := s.ws[i := Stored(s.ws[i].err)], dir := s.dir - {c.writers[i].tmp});
        StepGood(c, before, s, UnlinkTmp(i));
      } else {
        s := s.(ws := s.ws[i := Stored(s.ws[i].err)]);
        StepGood(c, before, s, UnlinkTmpFails(i));
      }
    }

    /** `_store_block`, run by a thread whose stores are `mine`. At the moment it returns 0, the destination holds a
        whole block. */
    method StoreBlock(i: nat, ghost mine: set<nat>) returns (err: int)
      requires Good(c, s) && i < |s.ws| && s.ws[i] == Checking && i in mine
      modifies this
      ensures Good(c, s) && DestsKept(c, old(s), s) && SameOwn(old(s), s, mine - {i}, {})
      ensures s.ws[i] == Stored(err)
      ensures err == 0 ==> HoldsWhole(c, s, c.writers[i].dest)
    {
      Interfere(mine, {});
      var present := Access(i);
      if present {
        WholeNow(c, s, i);
        return 0;
      }
      Interfere(mine, {});
      err := EnsureParentDirs(i);
      if err != 0 {
        return;
      }
      Interfere(mine, {});
      err := OpenExclusive(i);
      if err != 0 {
        return;
      }
      err := WriteAndPublish(i, mine);
    }

    /** The part of `_store_block` that owns a temp file. */
    method WriteAndPublish(i: nat, ghost mine: set<nat>) returns (err: int)
      requires Good(c, s) && i < |s.ws| && s.ws[i].Writing? && s.ws[i].written == 0 && i in mine
      modifies this
      ensures Good(c, s) && DestsKept(c, old(s), s) && SameOwn(old(s), s, mine - {i}, {})
      ensures s.ws[i] == Stored(err)
      ensures err == 0 ==> HoldsWhole(c, s, c.writers[i].dest)
    {
      Interfere(mine, {});
      err := Write(i, mine);
      if err == 0 {
        err := CloseAndRename(i, mine);
        if err == 0 {
          WholeNow(c, s, i);
          return;
        }
      }
      Interfere(mine, {});
      UnlinkTemp(i);
    }

    method CloseAndRename(i: nat, ghost mine: set<nat>) returns (err: int)
      requires Good(c, s) && i < |s.ws| && s.ws[i].Closing? && i in mine
      modifies this
      ensures Good(c, s) && DestsKept(c, old(s), s) && SameOwn(old(s), s, mine - {i}, {})
      ensures if err == 0 then s.ws[i] == Stored(0) && c.writers[i].dest in s.dir
          else s.ws[i].Cleaning? && s.ws[i].err == err
    {
      Interfere(mine, {});
      err := Close(i);
      if err != 0 {
        return;
      }
      Interfere(mine, {});
      err := Rename(i);
    }

    /** `batch_store_block`: stops at the first error. Afterwards every store before it has its destination in place,
        and still has while other threads go on. */
    method BatchStore(first: nat, n: nat) returns (failedIndex: int, failure: int)
      requires Good(c, s) && first + n <= |s.ws|
      requires forall i :: first <= i < first + n ==> s.ws[i] == Checking
      modifies this
      ensures Good(c, s) && DestsKept(c, old(s), s) && first + n <= |s.ws| == |c.writers|
      ensures failedIndex < 0 ==> forall i :: first <= i < first + n ==>
          s.ws[i] == Stored(0) && (AllFit(c) ==> c.writers[i].dest in s.dir)
      ensures failedIndex >= 0 ==>
        && failedIndex < n && failure != 0 && s.ws[first + failedIndex] == Stored(failure)
        && (forall i :: first <= i < first + failedIndex ==>
            s.ws[i] == Stored(0) && (AllFit(c) ==> c.writers[i].dest in s.dir))
        && (forall i :: first + failedIndex < i < first + n ==> s.ws[i] == Checking)
    {
      ghost var mine := Span(first, n);
      failedIndex, failure := -1, 0;
      for k := 0 to n
        invariant Good(c, s) && DestsKept(c, old(s), s) && |s.ws| == |old(s).ws|
        invariant forall i :: first <= i < first + k ==> s.ws[i] == Stored(0)
        invariant forall i :: first + k <= i < first + n ==> s.ws[i] == Checking
      {
        ghost var before := s;
        var err := StoreBlock(first + k, mine);
        assert forall i :: first <= i < first + n && i != first + k ==> s.ws[i] == before.ws[i];
        if err != 0 {
          failedIndex, failure := k, err;
          break;
        }
      }
    }

    // --- Loads -------------------------------------------------------------------------------------------------------

    method OpenSource(j: nat) returns (err: int)
      requires Good(c, s) && j < |s.rs| && s.rs[j] == Ready
      modifies this
      ensures OnlyLoad(old(s), s, j)
      ensures if err == 0 then s.rs[j].Reading? && s.rs[j].buf == [] else s.rs[j] == Loaded(err, [])
      ensures Good(c, s) && DestsKept(c, old(s), s)
    {
      err := Errno();
      if c.readers[j].path in s.dir {
        if * {
          err := 0;
        }
      }
      ghost var before := s;
      s := s.(rs := s.rs[j := if err == 0 then Reading(s.dir[c.readers[j].path], []) else Loaded(err, [])]);
      StepGood(c, before, s, if err == 0 then OpenSrc(j) else OpenSrcFails(j, err));
    }

    /** One read call. It returns the byte count: the whole buffer, fewer only at the end of the file, or -1. */
    method Read(j: nat, ghost mine: set<nat>) returns (bytesRead: int)
      requires Good(c, s) && j < |s.rs| && s.rs[j].Reading? && s.rs[j].buf == [] && j in mine
      modifies this
      ensures Good(c, s) && DestsKept(c, old(s), s) && SameOwn(old(s), s, {}, mine - {j})
      ensures s.rs[j].Reading? && bytesRead <= c.readers[j].size
      ensures bytesRead >= 0 ==> |s.rs[j].buf| == bytesRead && s.rs[j].ino in s.files
      ensures 0 <= bytesRead < c.readers[j].size ==> bytesRead == |s.files[s.rs[j].ino]|
    {
      bytesRead := 0;
      var stop := false;
      while !stop
        invariant Good(c, s) && DestsKept(c, old(s), s) && SameOwn(old(s), s, {}, mine - {j})
        invariant s.rs[j].Reading? && |s.rs[j].buf| <= c.readers[j].size
        invariant stop && bytesRead >= 0 ==> |s.rs[j].buf| == bytesRead && s.rs[j].ino in s.files
        invariant stop && 0 <= bytesRead < c.readers[j].size ==> bytesRead == |s.files[s.rs[j].ino]|
        invariant bytesRead <= c.readers[j].size
        decreases !stop, c.readers[j].size - |s.rs[j].buf|
      {
        Interfere({}, mine);
        assert ReaderOk(c, s, j);
        var ino, have := s.rs[j].ino, |s.rs[j].buf|;
        if * {
          bytesRead, stop := -1, true;
        } else if have == c.readers[j].size || have == |s.files[ino]| {
          bytesRead, stop := have, true;
        } else {
          ghost var before := s;
          s := s.(rs := s.rs[j := Reading(ino, s.rs[j].buf + s.files[ino][have..have + 1])]);
          StepGood(c, before, s, ReadBytes(j, 1));
        }
      }
    }

    /** `_load_block`. A load that returns 0 holds the front of one whole block of its path. */
    method LoadBlock(j: nat, ghost mine: set<nat>) returns (err: int)
      requires Good(c, s) && j < |s.rs| && s.rs[j] == Ready && j in mine
      modifies this
      ensures Good(c, s) && DestsKept(c, old(s), s) && SameOwn(old(s), s, {}, mine - {j})
      ensures s.rs[j].Loaded? && s.rs[j].err == err
      ensures err == 0 ==> HoldsBlock(c, s, j)
    {
      Interfere({}, mine);
      err := OpenSource(j);
      if err != 0 {
        return;
      }
      Interfere({}, mine);
      var bytesRead := Read(j, mine);
      err := FinishLoad(j, bytesRead, mine);
    }

    /** What `_load_block` does with the result of its read. */
    method FinishLoad(j: nat, bytesRead: int, ghost mine: set<nat>) returns (err: int)
      requires Good(c, s) && j < |s.rs| && s.rs[j].Reading? && j in mine && bytesRead <= c.readers[j].size
      requires bytesRead >= 0 ==> |s.rs[j].buf| == bytesRead && s.rs[j].ino in s.files
      requires 0 <= bytesRead < c.readers[j].size ==> bytesRead == |s.files[s.rs[j].ino]|
      modifies this
      ensures Good(c, s) && DestsKept(c, old(s), s) && SameOwn(old(s), s, {}, mine - {j})
      ensures s.rs[j].Loaded? && s.rs[j].err == err
      ensures err == 0 ==> HoldsBlock(c, s, j)
    {
      ghost var before := s;
      if bytesRead < 0 {
        err := Errno();
        s := s.(rs := s.rs[j := Loaded(err, s.rs[j].buf)]);
        StepGood(c, before, s, ReadFails(j, err));
      } else if bytesRead < c.readers[j].size {
        s := s.(rs := s.rs[j := Removing]);
        StepGood(c, before, s, ReadShort(j));
        Interfere({}, mine);
        UnlinkSource(j);
        err := EIO;
      } else {
        s := s.(rs := s.rs[j := Loaded(0, s.rs[j].buf)]);
        StepGood(c, before, s, ReadFull(j));
        assert ReaderOk(c, s, j);
        err := 0;
      }
    }

    method UnlinkSource(j: nat)
      requires Good(c, s) && j < |s.rs| && s.rs[j].Removing?
      modifies this
      ensures OnlyLoad(old(s), s, j) && s.rs[j] == Loaded(EIO, [])
      ensures Good(c, s) && DestsKept(c, old(s), s)
    {
      ghost var before := s;
      if * {
        s := s.(rs := s.rs[j := Loaded(EIO, [])], dir := s.dir - {c.readers[j].path});
        StepGood(c, before, s, UnlinkSrc(j));
      } else {
        s := s.(rs := s.rs[j := Loaded(EIO, [])]);
        StepGood(c, before, s, UnlinkSrcFails(j));
      }
    }

    /** `batch_load_block`: stops at the first error and reports how many blocks were loaded before it. */
    method BatchLoad(first: nat, n: nat) returns (failedIndex: int, failure: int)
      requires Good(c, s) && first + n <= |s.rs|
      requires forall j :: first <= j < first + n ==> s.rs[j] == Ready
      modifies this
      ensures Good(c, s) && DestsKept(c, old(s), s) && first + n <= |s.rs| == |c.readers|
      ensures failedIndex < n && (failedIndex >= 0 ==> failure != 0)
      ensures forall j :: first <= j < first + (if failedIndex < 0 then n else failedIndex) ==> HoldsBlock(c, s, j)
      ensures failedIndex >= 0 ==> s.rs[first + failedIndex].Loaded? && s.rs[first + failedIndex].err == failure
      ensures failedIndex >= 0 ==> forall j :: first + failedIndex < j < first + n ==> s.rs[j] == Ready
    {
      ghost var mine := Span(first, n);
      failedIndex, failure := -1, 0;
      for k := 0 to n
        invariant Good(c, s) && DestsKept(c, old(s), s) && |s.rs| == |old(s).rs|
        invariant forall j :: first <= j < first + k ==> HoldsBlock(c, s, j)
        invariant forall j :: first + k <= j < first + n ==> s.rs[j] == Ready
      {
        ghost var before := s;
        var err := LoadBlock(first + k, mine);
        forall j | first <= j < first + k
          ensures HoldsBlock(c, s, j)
        {
          assert HoldsBlock(c, before, j) && j in mine - {first + k} && s.rs[j] == before.rs[j];
        }
        if err != 0 {
          failedIndex, failure := k, err;
          break;
        }
      }
    }
  }
}
