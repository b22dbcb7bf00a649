/**
 The on-disk block store as a step system. Every system call of `_store_block` and `_load_block` is one step (a write or
 read may also move its bytes in several steps), any number of writers and readers interleave, any call may fail.
 A rename replaces its destination atomically, as rename() is specified in POSIX.1-2017, System Interfaces, section 3.
 */
module BlockFiles {

  type Path = string
  type Bytes = seq<bv8>
  type Inode = nat

  datatype Writer = Writer(tmp: Path, dest: Path, data: Bytes)
  datatype Reader = Reader(path: Path, size: nat)

  /** The processes of a run, and the blocks found at destination paths when it starts. */
  datatype Config = Config(writers: seq<Writer>, readers: seq<Reader>, initial: map<Path, Bytes>)

  /** Where a store stands. `ino` is the inode it created for its temp file. */
  datatype WState =
    | Checking
    | Opening
    | Writing(ino: Inode, written: nat)
    | Closing(ino: Inode)
    | Renaming(ino: Inode)
    | Cleaning(ino: Inode, err: int)
    | Stored(err: int)

  /** Where a load stands. `buf` is the filled part of its buffer. */
  datatype RState =
    | Ready
    | Reading(ino: Inode, buf: Bytes)
    | Removing
    | Loaded(err: int, buf: Bytes)

  datatype Sys = Sys(dir: map<Path, Inode>, files: map<Inode, Bytes>, ws: seq<WState>, rs: seq<RState>)

  datatype Action =
    | Found(i: nat)
    | Missing(i: nat)                            // not there, or the check failed otherwise
    | NoDirs(i: nat, err: int)
    | OpenTmp(i: nat, ino: Inode) | OpenTmpFails(i: nat, err: int)
    | WriteBytes(i: nat, n: nat) | WriteOk(i: nat) | WriteFails(i: nat, err: int)
    | CloseOk(i: nat) | CloseFails(i: nat, err: int)
    | RenameOk(i: nat) | RenameFails(i: nat, err: int)
    | UnlinkTmp(i: nat) | UnlinkTmpFails(i: nat)
    | OpenSrc(j: nat) | OpenSrcFails(j: nat, err: int)
    | ReadBytes(j: nat, n: nat) | ReadFails(j: nat, err: int) | ReadFull(j: nat) | ReadShort(j: nat)
    | UnlinkSrc(j: nat) | UnlinkSrcFails(j: nat)

  const EIO := 5

  predicate IsTemp(c: Config, p: Path) {
    exists i :: 0 <= i < |c.writers| && c.writers[i].tmp == p
  }

  /** Temp paths are nobody's destination or source. Different writers may well use the same temp path. */
  predicate WellNamed(c: Config) {
    && (forall i :: 0 <= i < |c.writers| ==> !IsTemp(c, c.writers[i].dest))
    && (forall j :: 0 <= j < |c.readers| ==> !IsTemp(c, c.readers[j].path))
    && (forall p :: p in c.initial ==> !IsTemp(c, p))
  }

  ghost predicate WStep(c: Config, s: Sys, s': Sys, i: nat, w: WState) {
    i < |s.ws| && s'.ws == s.ws[i := w] && s'.rs == s.rs
  }

  ghost predicate RStep(c: Config, s: Sys, s': Sys, j: nat, r: RState) {
    j < |s.rs| && s'.rs == s.rs[j := r] && s'.ws == s.ws
  }

  ghost predicate SameFs(s: Sys, s': Sys) {
    s'.dir == s.dir && s'.files == s.files
  }

  /** The steps of a store. */
  ghost predicate StoreStep(c: Config, s: Sys, s': Sys, a: Action)
    requires |s.ws| == |c.writers|
  {
    match a
    case Found(i) =>
      i < |s.ws| && s.ws[i].Checking? && c.writers[i].dest in s.dir && WStep(c, s, s', i, Stored(0)) && SameFs(s, s')
    case Missing(i) =>
      i < |s.ws| && s.ws[i].Checking? && WStep(c, s, s', i, Opening) && SameFs(s, s')
    case NoDirs(i, err) =>
      i < |s.ws| && s.ws[i].Opening? && err != 0 && WStep(c, s, s', i, Stored(err)) && SameFs(s, s')
    case OpenTmp(i, ino) =>
      && i < |s.ws| && s.ws[i].Opening? && c.writers[i].tmp !in s.dir && ino !in s.files
      && WStep(c, s, s', i, Writing(ino, 0))
      && s'.dir == s.dir[c.writers[i].tmp := ino] && s'.files == s.files[ino := []]
    case OpenTmpFails(i, err) =>
      i < |s.ws| && s.ws[i].Opening? && err != 0 && WStep(c, s, s', i, Stored(err)) && SameFs(s, s')
    case WriteBytes(i, n) =>
      && i < |s.ws| && s.ws[i].Writing? && s.ws[i].ino in s.files && s.ws[i].written + n <= |c.writers[i].data|
      && WStep(c, s, s', i, Writing(s.ws[i].ino, s.ws[i].written + n))
      && s'.dir == s.dir
      && var w := s.ws[i];
      s'.files == s.files[w.ino := s.files[w.ino] + c.writers[i].data[w.written..w.written + n]]
    case WriteOk(i) =>
      && i < |s.ws| && s.ws[i].Writing? && s.ws[i].written == |c.writers[i].data|
      && WStep(c, s, s', i, Closing(s.ws[i].ino)) && SameFs(s, s')
    case WriteFails(i, err) =>
      i < |s.ws| && s.ws[i].Writing? && err != 0 && WStep(c, s, s', i, Cleaning(s.ws[i].ino, err)) && SameFs(s, s')
    case CloseOk(i) =>
      i < |s.ws| && s.ws[i].Closing? && WStep(c, s, s', i, Renaming(s.ws[i].ino)) && SameFs(s, s')
    case CloseFails(i, err) =>
      i < |s.ws| && s.ws[i].Closing? && err != 0 && WStep(c, s, s', i, Cleaning(s.ws[i].ino, err)) && SameFs(s, s')
    case RenameOk(i) =>
      && i < |s.ws| && s.ws[i].Renaming? && c.writers[i].tmp in s.dir
      && WStep(c, s, s', i, Stored(0))
      && s'.dir == (s.dir - {c.writers[i].tmp})[c.writers[i].dest := s.dir[c.writers[i].tmp]] && s'.files == s.files
    case RenameFails(i, err) =>
      i < |s.ws| && s.ws[i].Renaming? && err != 0 && WStep(c, s, s', i, Cleaning(s.ws[i].ino, err)) && SameFs(s, s')
    case UnlinkTmp(i) =>
      && i < |s.ws| && s.ws[i].Cleaning?
      && WStep(c, s, s', i, Stored(s.ws[i].err)) && s'.dir == s.dir - {c.writers[i].tmp} && s'.files == s.files
    case UnlinkTmpFails(i) =>
      i < |s.ws| && s.ws[i].Cleaning? && WStep(c, s, s', i, Stored(s.ws[i].err)) && SameFs(s, s')
    case _ => false
  }

  /** The steps of a load. It unlinks its source only after a read that hit the end of the file early. */
  ghost predicate LoadStep(c: Config, s: Sys, s': Sys, a: Action)
    requires |s.rs| == |c.readers|
  {
    match a
    case OpenSrc(j) =>
      && j < |s.rs| && s.rs[j].Ready? && c.readers[j].path in s.dir
      && RStep(c, s, s', j, Reading(s.dir[c.readers[j].path], [])) && SameFs(s, s')
    case OpenSrcFails(j, err) =>
      j < |s.rs| && s.rs[j].Ready? && err != 0 && RStep(c, s, s', j, Loaded(err, [])) && SameFs(s, s')
    case ReadBytes(j, n) =>
      && j < |s.rs| && s.rs[j].Reading? && s.rs[j].ino in s.files
      && |s.rs[j].buf| + n <= c.readers[j].size && |s.rs[j].buf| + n <= |s.files[s.rs[j].ino]|
      && RStep(c, s, s', j, Reading(s.rs[j].ino, s.rs[j].buf + s.files[s.rs[j].ino][|s.rs[j].buf|..|s.rs[j].buf| + n]))
      && SameFs(s, s')
    case ReadFails(j, err) =>
      j < |s.rs| && s.rs[j].Reading? && err != 0 && RStep(c, s, s', j, Loaded(err, s.rs[j].buf)) && SameFs(s, s')
    case ReadFull(j) =>
      && j < |s.rs| && s.rs[j].Reading? && |s.rs[j].buf| == c.readers[j].size
      && RStep(c, s, s', j, Loaded(0, s.rs[j].buf)) && SameFs(s, s')
    case ReadShort(j) =>
      && j < |s.rs| && s.rs[j].Reading? && s.rs[j].ino in s.files
      && |s.rs[j].buf| == |s.files[s.rs[j].ino]| < c.readers[j].size
      && RStep(c, s, s', j, Removing) && SameFs(s, s')
    case UnlinkSrc(j) =>
      && j < |s.rs| && s.rs[j].Removing?
      && RStep(c, s, s', j, Loaded(EIO, [])) && s'.dir == s.dir - {c.readers[j].path} && s'.files == s.files
    case UnlinkSrcFails(j) =>
      j < |s.rs| && s.rs[j].Removing? && RStep(c, s, s', j, Loaded(EIO, [])) && SameFs(s, s')
    case _ => false
  }

  ghost predicate Next(c: Config, s: Sys, s': Sys, a: Action) {
    |s.ws| == |c.writers| && |s.rs| == |c.readers| && (StoreStep(c, s, s', a) || LoadStep(c, s, s', a))
  }

  // --- The invariant -------------------------------------------------------------------------------------------------

  /** The store holds a temp file. */
  predicate Owns(w: WState) {
    w.Writing? || w.Closing? || w.Renaming? || w.Cleaning?
  }

  /** The bytes are a whole block for the path: some writer's data or what was there at the start. */
  ghost predicate Block(c: Config, p: Path, b: Bytes) {
    || (exists i :: 0 <= i < |c.writers| && c.writers[i].dest == p && c.writers[i].data == b)
    || (p in c.initial && c.initial[p] == b)
  }

  /** No store is still working on the inode. */
  ghost predicate Settled(s: Sys, ino: Inode) {
    forall i :: 0 <= i < |s.ws| && Owns(s.ws[i]) ==> s.ws[i].ino != ino
  }

  /** A store in progress is bound to its own temp file, which holds what it has written. */
  ghost predicate WriterOk(c: Config, s: Sys, i: nat)
    requires i < |s.ws| == |c.writers|
  {
    Owns(s.ws[i]) ==>
      && c.writers[i].tmp in s.dir && s.dir[c.writers[i].tmp] == s.ws[i].ino && s.ws[i].ino in s.files
      && (s.ws[i].Writing? ==>
        s.ws[i].written <= |c.writers[i].data| && s.files[s.ws[i].ino] == c.writers[i].data[..s.ws[i].written])
      && (s.ws[i].Closing? || s.ws[i].Renaming? ==> s.files[s.ws[i].ino] == c.writers[i].data)
      && (s.ws[i].Cleaning? ==> s.ws[i].err != 0)
  }

  /** An open load reads a settled whole block; a load that returned 0 holds the front of one. */
  ghost predicate ReaderOk(c: Config, s: Sys, j: nat)
    requires j < |s.rs| == |c.readers|
  {
    && (s.rs[j].Reading? ==>
      && s.rs[j].ino in s.files && Settled(s, s.rs[j].ino)
      && Block(c, c.readers[j].path, s.files[s.rs[j].ino])
      && s.rs[j].buf <= s.files[s.rs[j].ino] && |s.rs[j].buf| <= c.readers[j].size)
    && (s.rs[j].Loaded? && s.rs[j].err == 0 ==>
      |s.rs[j].buf| == c.readers[j].size && exists b :: Block(c, c.readers[j].path, b) && s.rs[j].buf <= b)
  }

  /** A destination path is absent or bound to a settled whole block. */
  ghost predicate PathOk(c: Config, s: Sys, p: Path)
    requires p in s.dir
  {
    s.dir[p] in s.files && (!IsTemp(c, p) ==> Settled(s, s.dir[p]) && Block(c, p, s.files[s.dir[p]]))
  }

  ghost predicate Inv(c: Config, s: Sys) {
    && WellNamed(c) && |s.ws| == |c.writers| && |s.rs| == |c.readers|
    && (forall p :: p in s.dir ==> PathOk(c, s, p))
    && (forall i :: 0 <= i < |s.ws| ==> WriterOk(c, s, i))
    && (forall i, k :: 0 <= i < k < |s.ws| && Owns(s.ws[i]) && Owns(s.ws[k]) ==> s.ws[i].ino != s.ws[k].ino)
    && (forall j :: 0 <= j < |s.rs| ==> ReaderOk(c, s, j))
  }

  /** Live stores hold different temp paths, whatever names they were given. */
  lemma TempsDiffer(c: Config, s: Sys, i: nat, k: nat)
    requires Inv(c, s) && i < |s.ws| && k < |s.ws| && i != k && Owns(s.ws[i]) && Owns(s.ws[k])
    ensures c.writers[i].tmp != c.writers[k].tmp && s.ws[i].ino != s.ws[k].ino
  {
    assert WriterOk(c, s, i) && WriterOk(c, s, k);
  }

  /** A store moves on without touching a file. */
  lemma QuietStoreInv(c: Config, s: Sys, s': Sys, i: nat, w: WState)
    requires Inv(c, s) && i < |s.ws| && WStep(c, s, s', i, w) && SameFs(s, s')
    requires Owns(w) ==> Owns(s.ws[i]) && w.ino == s.ws[i].ino
    requires !w.Writing? && (w.Cleaning? ==> w.err != 0)
    requires w.Closing? || w.Renaming? ==> w.ino in s.files && s.files[w.ino] == c.writers[i].data
    ensures Inv(c, s')
  {
    assert WriterOk(c, s, i);
    forall ino | Settled(s, ino)
      ensures Settled(s', ino)
    {
    }
    forall p | p in s'.dir
      ensures PathOk(c, s', p)
    {
      assert PathOk(c, s, p);
    }
    forall k | 0 <= k < |s'.ws|
      ensures WriterOk(c, s', k)
    {
      assert WriterOk(c, s, k);
    }
    forall j | 0 <= j < |s'.rs|
      ensures ReaderOk(c, s', j)
    {
      assert ReaderOk(c, s, j);
    }
  }

  /** The exclusive open creates a file nobody else has. */
  lemma OpenTmpInv(c: Config, s: Sys, s': Sys, a: Action)
    requires Inv(c, s) && a.OpenTmp? && StoreStep(c, s, s', a)
    ensures Inv(c, s')
  {
    var i := a.i;
    forall k | 0 <= k < |s'.ws|
      ensures WriterOk(c, s', k) && (k != i && Owns(s'.ws[k]) ==> s'.ws[k].ino != a.ino)
    {
      assert WriterOk(c, s, k);
    }
    forall ino | ino in s.files && Settled(s, ino)
      ensures Settled(s', ino)
    {
    }
    forall p | p in s'.dir
      ensures PathOk(c, s', p)
    {
      if p != c.writers[i].tmp {
        assert PathOk(c, s, p);
      }
    }
    forall j | 0 <= j < |s'.rs|
      ensures ReaderOk(c, s', j)
    {
      assert ReaderOk(c, s, j);
    }
  }

  /** Writing touches only the writer's own file, which no other process can see. */
  lemma WriteBytesInv(c: Config, s: Sys, s': Sys, a: Action)
    requires Inv(c, s) && a.WriteBytes? && StoreStep(c, s, s', a)
    ensures Inv(c, s')
  {
    var i := a.i;
    var ino := s.ws[i].ino;
    assert WriterOk(c, s, i);
    assert s'.files[ino] == c.writers[i].data[..s'.ws[i].written];
    forall k | 0 <= k < |s'.ws|
      ensures WriterOk(c, s', k)
    {
      assert WriterOk(c, s, k);
      if k != i && Owns(s.ws[k]) {
        TempsDiffer(c, s, i, k);
      }
    }
    forall n | Settled(s, n)
      ensures Settled(s', n) && n != ino
    {
      assert Owns(s.ws[i]);
    }
    forall p | p in s'.dir
      ensures PathOk(c, s', p)
    {
      assert PathOk(c, s, p);
    }
    forall j | 0 <= j < |s'.rs|
      ensures ReaderOk(c, s', j)
    {
      assert ReaderOk(c, s, j);
    }
  }

  /** The rename publishes a complete file and gives it up. */
  lemma RenameInv(c: Config, s: Sys, s': Sys, a: Action)
    requires Inv(c, s) && a.RenameOk? && StoreStep(c, s, s', a)
    ensures Inv(c, s')
  {
    var i := a.i;
    var ino := s.ws[i].ino;
    assert WriterOk(c, s, i);
    forall k | 0 <= k < |s'.ws|
      ensures WriterOk(c, s', k)
    {
      assert WriterOk(c, s, k);
      if k != i && Owns(s.ws[k]) {
        TempsDiffer(c, s, i, k);
        assert IsTemp(c, c.writers[k].tmp);
      }
    }
    forall n | Settled(s, n) || n == ino
      ensures Settled(s', n)
    {
      forall k | 0 <= k < |s'.ws| && Owns(s'.ws[k])
        ensures s'.ws[k].ino != n
      {
        assert k != i && s'.ws[k] == s.ws[k];
        TempsDiffer(c, s, i, k);
      }
    }
    forall p | p in s'.dir
      ensures PathOk(c, s', p)
    {
      if p != c.writers[i].dest {
        assert PathOk(c, s, p);
      }
    }
    forall j | 0 <= j < |s'.rs|
      ensures ReaderOk(c, s', j)
    {
      assert ReaderOk(c, s, j);
    }
  }

  /** Cleaning up removes the writer's own temp file. */
  lemma UnlinkTmpInv(c: Config, s: Sys, s': Sys, a: Action)
    requires Inv(c, s) && a.UnlinkTmp? && StoreStep(c, s, s', a)
    ensures Inv(c, s')
  {
    var i := a.i;
    forall k | 0 <= k < |s'.ws|
      ensures WriterOk(c, s', k)
    {
      assert WriterOk(c, s, k);
      if k != i && Owns(s.ws[k]) {
        TempsDiffer(c, s, i, k);
      }
    }
    forall n | Settled(s, n)
      ensures Settled(s', n)
    {
    }
    forall p | p in s'.dir
      ensures PathOk(c, s', p)
    {
      assert PathOk(c, s, p);
    }
    forall j | 0 <= j < |s'.rs|
      ensures ReaderOk(c, s', j)
    {
      assert ReaderOk(c, s, j);
    }
  }

  /** Loads change no file; the most they do is drop a destination. */
  lemma LoadInv(c: Config, s: Sys, s': Sys, a: Action)
    requires Inv(c, s) && LoadStep(c, s, s', a)
    ensures Inv(c, s')
  {
    var j := a.j;
    assert ReaderOk(c, s, j);
    forall n | Settled(s, n)
      ensures Settled(s', n)
    {
    }
    forall p | p in s'.dir
      ensures PathOk(c, s', p)
    {
      assert PathOk(c, s, p);
    }
    forall k | 0 <= k < |s'.ws|
      ensures WriterOk(c, s', k)
    {
      assert WriterOk(c, s, k);
      assert IsTemp(c, c.writers[k].tmp);
    }
    forall x | 0 <= x < |s'.rs|
      ensures ReaderOk(c, s', x)
    {
      assert ReaderOk(c, s, x);
      if x == j && a.OpenSrc? {
        assert PathOk(c, s, c.readers[j].path);
      }
    }
  }

  lemma StoreInv(c: Config, s: Sys, s': Sys, a: Action)
    requires Inv(c, s) && StoreStep(c, s, s', a)
    ensures Inv(c, s')
  {
    var i := a.i;
    assert WriterOk(c, s, i);
    if a.OpenTmp? {
      OpenTmpInv(c, s, s', a);
    } else if a.WriteBytes? {
      WriteBytesInv(c, s, s', a);
    } else if a.RenameOk? {
      RenameInv(c, s, s', a);
    } else if a.UnlinkTmp? {
      UnlinkTmpInv(c, s, s', a);
    } else {
      QuietStoreInv(c, s, s', i, s'.ws[i]);
    }
  }

  /** Every step of every process keeps the invariant. */
  lemma NextInv(c: Config, s: Sys, s': Sys, a: Action)
    requires Inv(c, s) && Next(c, s, s', a)
    ensures Inv(c, s')
  {
    if LoadStep(c, s, s', a) {
      LoadInv(c, s, s', a);
    } else {
      StoreInv(c, s, s', a);
    }
  }
}
