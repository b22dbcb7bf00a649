/** Planning, writing and validating a rank-sliced checkpoint. */
module SliceCheckpoint {
  import opened Arith
  import opened Wrappers
  import opened TensorSlices
  import opened ExpertNames
  import opened ExpertInventory
  import opened SliceRules

  /** The written tree: the index of output tensors by name, and the shards' contents. */
  datatype Tree<E> = Tree(index: map<string, string>, shards: map<string, map<string, Tensor<E>>>)

  // --- inspect_source ------------------------------------------------------------------------------------------------

  /** All names of the index. */
  function IndexedNames<E>(src: Source<E>, files: seq<string>): seq<string>
    requires forall f :: f in files ==> f in src.names
  {
    if files == [] then [] else IndexedNames(src, files[..|files| - 1]) + src.names[files[|files| - 1]]
  }

  /** The expert tensors form a complete grid of layers, experts, projections and fields. */
  ghost predicate Whole<E>(src: Source<E>)
    requires WellFormed(src)
  {
    Complete(IndexedNames(src, src.files))
  }

  /** The number of output tensors and of their bytes; an error if the expert tensors are incomplete or some tensor
      cannot be transformed. */
  method Plan<E>(src: Source<E>, tp: nat) returns (r: Result<(nat, nat)>)
    requires WellFormed(src)
    ensures r.Ok? <==> tp >= 2 && Whole(src) && AllSliceable(src, tp)
    ensures r.Ok? ==> r.value == (|FileItems(src, tp, src.files)|, SumBytes(FileItems(src, tp, src.files)))
  {
    if tp < 2 {
      return Err("TP must be at least 2");
    }
    var complete := Inspect(IndexedNames(src, src.files));
    if !complete {
      return Err("expert records are incomplete");
    }
    var tensors, bytes := 0, 0;
    ghost var done: seq<Item<E>> := [];
    for i := 0 to |src.files|
      invariant SliceableUpTo(src, tp, i) && done == FileItems(src, tp, src.files[..i])
      invariant tensors == |done| && bytes == SumBytes(done)
    {
      var f := src.files[i];
      var ok, t, b := PlanShard(src, tp, f);
      if !ok {
        return Err("a tensor cannot be transformed");
      }
      PlannedMore(src, tp, i);
      SumBytesConcat(done, NameItems(src, tp, f, src.names[f]));
      done := done + NameItems(src, tp, f, src.names[f]);
      tensors, bytes := tensors + t, bytes + b;
    }
    WholeList(src.files);
    r := Ok((tensors, bytes));
  }

  ghost predicate SliceableUpTo<E>(src: Source<E>, tp: nat, i: nat)
    requires WellFormed(src) && i <= |src.files|
  {
    forall f, n :: f in src.files[..i] && n in src.names[f] ==> Sliceable(src, tp, f, n)
  }

  lemma PlannedMore<E>(src: Source<E>, tp: nat, i: nat)
    requires WellFormed(src) && i < |src.files| && SliceableUpTo(src, tp, i)
    requires forall n :: n in src.names[src.files[i]] ==> Sliceable(src, tp, src.files[i], n)
    ensures SliceableUpTo(src, tp, i + 1)
    ensures FileItems(src, tp, src.files[..i + 1])
         == FileItems(src, tp, src.files[..i]) + NameItems(src, tp, src.files[i], src.names[src.files[i]])
  {
    var all := src.files[..i + 1];
    assert all[..|all| - 1] == src.files[..i] && all[|all| - 1] == src.files[i];
    assert forall f :: f in all <==> f in src.files[..i] || f == src.files[i];
  }

  lemma WholeList(files: seq<string>)
    ensures files[..|files|] == files
  {
  }

  method PlanShard<E>(src: Source<E>, tp: nat, f: string) returns (ok: bool, tensors: nat, bytes: nat)
    requires WellFormed(src) && f in src.files
    ensures ok <==> forall n :: n in src.names[f] ==> Sliceable(src, tp, f, n)
    ensures ok ==>
      tensors == |NameItems(src, tp, f, src.names[f])| && bytes == SumBytes(NameItems(src, tp, f, src.names[f]))
  {
    var names := src.names[f];
    tensors, bytes := 0, 0;
    ghost var done: seq<Item<E>> := [];
    for j := 0 to |names|
      invariant forall n :: n in names[..j] ==> Sliceable(src, tp, f, n)
      invariant done == NameItems(src, tp, f, names[..j]) && tensors == |done| && bytes == SumBytes(done)
    {
      var n := names[j];
      assert n in names;
      var transformed := Transform(f, n, src.tensors[n], tp);
      if transformed.Err? {
        assert !Sliceable(src, tp, f, n);
        return false, 0, 0;
      }
      SliceableMore(src, tp, f, names, j);
      NextName(src, tp, f, names, j);
      SumBytesConcat(done, transformed.value);
      done := done + transformed.value;
      tensors, bytes := tensors + |transformed.value|, bytes + SumBytes(transformed.value);
    }
    WholeList(names);
    ok := true;
  }

  lemma SliceableMore<E>(src: Source<E>, tp: nat, f: string, names: seq<string>, j: nat)
    requires j < |names| && (forall n :: n in names[..j] ==> Sliceable(src, tp, f, n))
        && Sliceable(src, tp, f, names[j])
    ensures forall n :: n in names[..j + 1] ==> Sliceable(src, tp, f, n)
  {
  }

  // --- convert_checkpoint --------------------------------------------------------------------------------------------

  /** The index lists exactly these items, whose names are all different. */
  ghost predicate Indexed<E>(index: map<string, string>, items: seq<Item<E>>) {
    && DistinctNames(items) && |index| == |items|
    && (forall i :: 0 <= i < |items| ==> items[i].name in index && index[items[i].name] == items[i].file)
    && (forall n :: n in index ==> exists i :: 0 <= i < |items| && items[i].name == n)
  }

  ghost predicate Stored<E>(tensors: map<string, Tensor<E>>, items: seq<Item<E>>) {
    && (forall i :: 0 <= i < |items| ==> items[i].name in tensors && tensors[items[i].name] == items[i].tensor)
    && (forall n :: n in tensors ==> exists i :: 0 <= i < |items| && items[i].name == n)
  }

  lemma AddItem<E>(index: map<string, string>, items: seq<Item<E>>, x: Item<E>)
    requires Indexed(index, items) && x.name !in index
    ensures Indexed(index[x.name := x.file], items + [x])
  {
    var more, index' := items + [x], index[x.name := x.file];
    forall i | 0 <= i < |more|
      ensures more[i].name in index' && index'[more[i].name] == more[i].file
    {
      assert i < |items| ==> more[i] == items[i];
    }
    forall n | n in index'
      ensures exists i :: 0 <= i < |more| && more[i].name == n
    {
      if n == x.name {
        assert more[|items|].name == n;
      } else {
        var i :| 0 <= i < |items| && items[i].name == n;
        assert more[i].name == n;
      }
    }
  }

  lemma StoreItem<E>(tensors: map<string, Tensor<E>>, items: seq<Item<E>>, x: Item<E>)
    requires Stored(tensors, items) && forall i :: 0 <= i < |items| ==> items[i].name != x.name
    ensures Stored(tensors[x.name := x.tensor], items + [x])
  {
    var more, tensors' := items + [x], tensors[x.name := x.tensor];
    forall i | 0 <= i < |more|
      ensures more[i].name in tensors' && tensors'[more[i].name] == more[i].tensor
    {
      assert i < |items| ==> more[i] == items[i];
    }
    forall n | n in tensors'
      ensures exists i :: 0 <= i < |more| && more[i].name == n
    {
      if n == x.name {
        assert more[|items|].name == n;
      } else {
        var i :| 0 <= i < |items| && items[i].name == n;
        assert more[i].name == n;
      }
    }
  }

  /** Everything written so far: `before` the current shard, and in it. */
  ghost predicate Wrote<E>(index: map<string, string>, tensors: map<string, Tensor<E>>, total: nat,
                           before: seq<Item<E>>, now: seq<Item<E>>) {
    Indexed(index, before + now) && Stored(tensors, now) && total == SumBytes(before + now)
  }

  lemma WriteItem<E>(index: map<string, string>, tensors: map<string, Tensor<E>>, total: nat,
                     before: seq<Item<E>>, now: seq<Item<E>>, x: Item<E>)
    requires Wrote(index, tensors, total, before, now) && x.name !in index
    ensures Wrote(index[x.name := x.file], tensors[x.name := x.tensor], total + Bytes(x.tensor), before, now + [x])
  {
    assert forall i :: 0 <= i < |now| ==> now[i] == (before + now)[|before| + i];
    AddItem(index, before + now, x);
    StoreItem(tensors, now, x);
    var all := before + (now + [x]);
    assert all == before + now + [x] && all[..|all| - 1] == before + now;
  }

  lemma DuplicateFound<E>(index: map<string, string>, tensors: map<string, Tensor<E>>, total: nat,
                          before: seq<Item<E>>, now: seq<Item<E>>, x: Item<E>, later: seq<Item<E>>)
    requires Wrote(index, tensors, total, before, now) && x.name in index
    ensures !DistinctNames(before + (now + [x] + later))
  {
    var all, some := before + (now + [x] + later), before + now;
    var i :| 0 <= i < |some| && some[i].name == x.name;
    assert all[i] == some[i] && all[|some|] == x;
  }

  lemma Ends<E>(now: seq<Item<E>>, pieces: seq<Item<E>>)
    ensures now + pieces[..0] == now && now + pieces[..|pieces|] == now + pieces
  {
    assert pieces[..|pieces|] == pieces;
  }

  lemma Peel<E>(now: seq<Item<E>>, pieces: seq<Item<E>>, k: nat)
    requires k < |pieces|
    ensures now + pieces[..k + 1] == now + pieces[..k] + [pieces[k]]
    ensures now + pieces == now + pieces[..k] + [pieces[k]] + pieces[k + 1..]
  {
  }

  /** The innermost loop: the outputs of one tensor. */
  method AddPieces<E>(pieces: seq<Item<E>>, index0: map<string, string>, tensors0: map<string, Tensor<E>>, total0: nat,
                      ghost before: seq<Item<E>>, ghost now: seq<Item<E>>)
      returns (ok: bool, index: map<string, string>, tensors: map<string, Tensor<E>>, total: nat)
    requires Wrote(index0, tensors0, total0, before, now)
    ensures ok ==> Wrote(index, tensors, total, before, now + pieces)
    ensures !ok ==> !DistinctNames(before + (now + pieces))
  {
    index, tensors, total := index0, tensors0, total0;
    ghost var done := now;
    Ends(now, pieces);
    for k := 0 to |pieces|
      invariant done == now + pieces[..k] && Wrote(index, tensors, total, before, done)
    {
      var x := pieces[k];
      Peel(now, pieces, k);
      if x.name in index {
        DuplicateFound(index, tensors, total, before, done, x, pieces[k + 1..]);
        return false, index, tensors, total;
      }
      WriteItem(index, tensors, total, before, done, x);
      done, index, tensors, total := done + [x], index[x.name := x.file], tensors[x.name := x.tensor],
          total + Bytes(x.tensor);
    }
    ok := true;
  }

  lemma {:induction false} NameItemsGrow<E>(src: Source<E>, tp: nat, f: string, names: seq<string>, j: nat)
    requires j <= |names| && forall n :: n in names ==> Sliceable(src, tp, f, n)
    ensures NameItems(src, tp, f, names[..j]) <= NameItems(src, tp, f, names)
  {
    if j < |names| {
      var front := names[..|names| - 1];
      NameItemsGrow(src, tp, f, front, j);
      assert front[..j] == names[..j];
    } else {
      assert names[..j] == names;
    }
  }

  lemma {:induction false} FileItemsGrow<E>(src: Source<E>, tp: nat, files: seq<string>, j: nat)
    requires j <= |files| && (forall f :: f in files ==> f in src.names)
    requires forall f, n :: f in files && n in src.names[f] ==> Sliceable(src, tp, f, n)
    ensures FileItems(src, tp, files[..j]) <= FileItems(src, tp, files)
  {
    if j < |files| {
      var front := files[..|files| - 1];
      FileItemsGrow(src, tp, front, j);
      assert front[..j] == files[..j];
    } else {
      assert files[..j] == files;
    }
  }

  lemma StillRepeats<E>(a: seq<Item<E>>, b: seq<Item<E>>, before: seq<Item<E>>)
    requires a <= b && !DistinctNames(before + a)
    ensures !DistinctNames(before + b)
  {
    var i, j :| 0 <= i < j < |before + a| && (before + a)[i].name == (before + a)[j].name;
    assert (before + b)[i] == (before + a)[i] && (before + b)[j] == (before + a)[j];
  }

  lemma RepeatsOn<E>(a: seq<Item<E>>, b: seq<Item<E>>)
    requires a <= b && !DistinctNames(a)
    ensures !DistinctNames(b)
  {
    var i, j :| 0 <= i < j < |a| && a[i].name == a[j].name;
    assert b[i] == a[i] && b[j] == a[j];
  }

  lemma RepeatsInShard<E>(src: Source<E>, tp: nat, f: string, names: seq<string>, j: nat, before: seq<Item<E>>)
    requires j <= |names| && forall n :: n in names ==> Sliceable(src, tp, f, n)
    requires !DistinctNames(before + NameItems(src, tp, f, names[..j]))
    ensures !DistinctNames(before + NameItems(src, tp, f, names))
  {
    NameItemsGrow(src, tp, f, names, j);
    StillRepeats(NameItems(src, tp, f, names[..j]), NameItems(src, tp, f, names), before);
  }

  lemma NoneYet<E>(before: seq<Item<E>>)
    ensures before + [] == before
  {
  }

  lemma NextName<E>(src: Source<E>, tp: nat, f: string, names: seq<string>, j: nat)
    requires j < |names| && (forall n :: n in names[..j + 1] ==> Sliceable(src, tp, f, n))
        && Sliceable(src, tp, f, names[j])
    ensures forall n :: n in names[..j] ==> Sliceable(src, tp, f, n)
    ensures NameItems(src, tp, f, names[..j + 1])
         == NameItems(src, tp, f, names[..j]) + Transform(f, names[j], src.tensors[names[j]], tp).value
  {
    PrefixMore(names, j);
    LastItems(src, tp, f, names[..j + 1]);
  }

  lemma PrefixMore(names: seq<string>, j: nat)
    requires j < |names|
    ensures |names[..j + 1]| == j + 1 && names[..j + 1][..j] == names[..j] && names[..j + 1][j] == names[j]
    ensures forall n :: n in names[..j] ==> n in names[..j + 1]
  {
  }

  lemma LastItems<E>(src: Source<E>, tp: nat, f: string, names: seq<string>)
    requires |names| > 0 && forall n :: n in names ==> Sliceable(src, tp, f, n)
    ensures Sliceable(src, tp, f, names[|names| - 1])
    ensures NameItems(src, tp, f, names) ==
      NameItems(src, tp, f, names[..|names| - 1])
      + Transform(f, names[|names| - 1], src.tensors[names[|names| - 1]], tp).value
  {
    assert names[|names| - 1] in names;
  }

  /** The tensors of one shard. */
  method ConvertShard<E>(src: Source<E>, tp: nat, f: string, index0: map<string, string>, total0: nat,
                         ghost before: seq<Item<E>>)
      returns (ok: bool, index: map<string, string>, tensors: map<string, Tensor<E>>, total: nat)
    requires WellFormed(src) && f in src.files && forall n :: n in src.names[f] ==> Sliceable(src, tp, f, n)
    requires Indexed(index0, before) && total0 == SumBytes(before)
    ensures ok ==> Wrote(index, tensors, total, before, NameItems(src, tp, f, src.names[f]))
    ensures !ok ==> !DistinctNames(before + NameItems(src, tp, f, src.names[f]))
  {
    var names := src.names[f];
    index, tensors, total := index0, map[], total0;
    ghost var done := [];
    NoneYet(before);
    for j := 0 to |names|
      invariant done == NameItems(src, tp, f, names[..j]) && Wrote(index, tensors, total, before, done)
    {
      assert Sliceable(src, tp, f, names[j]);
      var pieces := Transform(f, names[j], src.tensors[names[j]], tp).value;
      NextName(src, tp, f, names, j);
      ok, index, tensors, total := AddPieces(pieces, index, tensors, total, before, done);
      if !ok {
        RepeatsInShard(src, tp, f, names, j + 1, before);
        return;
      }
      done := done + pieces;
    }
    WholeList(names);
    ok := true;
  }

  /** Every shard file holds its items. */
  ghost predicate Saved<E>(src: Source<E>, tp: nat, shards: map<string, map<string, Tensor<E>>>, files: seq<string>)
    requires forall f :: f in files ==> f in src.names
    requires forall f, n :: f in files && n in src.names[f] ==> Sliceable(src, tp, f, n)
  {
    && (forall f :: f in shards <==> f in files)
    && forall f :: f in files ==> Stored(shards[f], NameItems(src, tp, f, src.names[f]))
  }

  /** The tree holds exactly the outputs of the source, each once and in its source's shard. */
  ghost predicate Converted<E>(src: Source<E>, tp: nat, tree: Tree<E>)
    requires WellFormed(src) && AllSliceable(src, tp)
  {
    Indexed(tree.index, FileItems(src, tp, src.files)) && Saved(src, tp, tree.shards, src.files)
  }

  lemma RepeatsInAll<E>(src: Source<E>, tp: nat, i: nat)
    requires WellFormed(src) && AllSliceable(src, tp) && i <= |src.files|
    requires !DistinctNames(FileItems(src, tp, src.files[..i]))
    ensures !DistinctNames(FileItems(src, tp, src.files))
  {
    FileItemsGrow(src, tp, src.files, i);
    RepeatsOn(FileItems(src, tp, src.files[..i]), FileItems(src, tp, src.files));
  }

  /** The loop over the shards. */
  method ConvertShards<E>(src: Source<E>, tp: nat) returns (ok: bool, tree: Tree<E>, total: nat)
    requires WellFormed(src) && AllSliceable(src, tp)
    ensures ok <==> DistinctNames(FileItems(src, tp, src.files))
    ensures ok ==> Converted(src, tp, tree) && total == SumBytes(FileItems(src, tp, src.files))
  {
    var index: map<string, string>, shards := map[], map[];
    total := 0;
    ghost var done := FileItems(src, tp, src.files[..0]);
    for i := 0 to |src.files|
      invariant done == FileItems(src, tp, src.files[..i]) && Indexed(index, done) && total == SumBytes(done)
      invariant Saved(src, tp, shards, src.files[..i])
    {
      var f := src.files[i];
      PlannedMore(src, tp, i);
      var tensors;
      ok, index, tensors, total := ConvertShard(src, tp, f, index, total, done);
      done := FileItems(src, tp, src.files[..i + 1]);
      if !ok {
        RepeatsInAll(src, tp, i + 1);
        return false, Tree(map[], map[]), 0;
      }
      SaveShard(src, tp, shards, i, tensors);
      shards := shards[f := tensors];
    }
    WholeList(src.files);
    ok, tree := true, Tree(index, shards);
  }

  /** Planning and the conversion loop. It fails exactly when the plan does or an ordinary tensor has a slice's name;
      otherwise the tree is complete, and the numbers of tensors and bytes written are the planned ones. */
  method Convert<E>(src: Source<E>, tp: nat) returns (r: Result<Tree<E>>, plan: (nat, nat), total: nat)
    requires WellFormed(src)
    ensures r.Ok? <==> tp >= 2 && Whole(src) && AllSliceable(src, tp) && !Clash(src, tp)
    ensures r.Ok? ==> Converted(src, tp, r.value) && plan == (|r.value.index|, total)
  {
    var planned := Plan(src, tp);
    plan, total := (0, 0), 0;
    if planned.Err? {
      return Err(planned.message), plan, total;
    }
    plan := planned.value;
    ClashIff(src, tp);
    var ok, tree;
    ok, tree, total := ConvertShards(src, tp);
    r := if ok then Ok(tree) else Err("duplicate output tensor");
  }

  lemma SaveShard<E>(src: Source<E>, tp: nat, shards: map<string, map<string, Tensor<E>>>, i: nat,
                     tensors: map<string, Tensor<E>>)
    requires WellFormed(src) && AllSliceable(src, tp) && i < |src.files| && Saved(src, tp, shards, src.files[..i])
    requires Stored(tensors, NameItems(src, tp, src.files[i], src.names[src.files[i]]))
    ensures Saved(src, tp, shards[src.files[i] := tensors], src.files[..i + 1])
  {
    assert forall f :: f in src.files[..i + 1] <==> f in src.files[..i] || f == src.files[i];
    assert src.files[i] !in src.files[..i];
  }
}
