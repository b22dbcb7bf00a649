/** The validator: what acceptance means, and that it accepts what the converter writes. */
module SliceValidate {
  import opened Wrappers
  import opened TensorSlices
  import opened ExpertNames
  import opened SliceRules
  import opened SliceCheckpoint

  /** Every expected output of tensor n is indexed in shard f and present there. */
  ghost predicate Present<E>(tree: Tree<E>, tp: nat, f: string, n: string) {
    f in tree.shards && forall i :: 0 <= i < |ExpectedNames(n, tp)| ==>
      var m := ExpectedNames(n, tp)[i]; m in tree.index && tree.index[m] == f && m in tree.shards[f]
  }

  ghost function PiecesIn<E>(tree: Tree<E>, tp: nat, f: string, n: string): seq<Tensor<E>>
    requires Present(tree, tp, f, n)
  {
    var names := ExpectedNames(n, tp);
    seq(|names|, i requires 0 <= i < |names| => tree.shards[f][names[i]])
  }

  /** The comparison made for one tensor. */
  ghost predicate Agrees<E>(pieces: seq<Tensor<E>>, n: string, t: Tensor<E>) {
    match Parse(n)
    case None => |pieces| > 0 && pieces[0] == t
    case Some(e) =>
      match TensorRule(e.projection, e.field)
      case Err(m) => false
      case Ok(None) => forall i :: 0 <= i < |pieces| ==> pieces[i] == t
      case Ok(Some(d)) => Cat(pieces, d) == Ok(t)
  }

  ghost predicate Verified<E>(src: Source<E>, tree: Tree<E>, tp: nat, f: string, n: string) {
    n in src.tensors && Present(tree, tp, f, n) && Agrees(PiecesIn(tree, tp, f, n), n, src.tensors[n])
  }

  // --- validate_checkpoint -------------------------------------------------------------------------------------------

  method Collect<E>(tree: Tree<E>, tp: nat, f: string, n: string) returns (ok: bool, pieces: seq<Tensor<E>>)
    requires f in tree.shards
    ensures ok <==> Present(tree, tp, f, n)
    ensures ok ==> pieces == PiecesIn(tree, tp, f, n)
  {
    var names := ExpectedNames(n, tp);
    pieces := [];
    for i := 0 to |names|
      invariant |pieces| == i
      invariant forall k :: 0 <= k < i ==>
        names[k] in tree.index && tree.index[names[k]] == f && names[k] in tree.shards[f]
            && pieces[k] == tree.shards[f][names[k]]
    {
      var m := names[i];
      if m !in tree.index || tree.index[m] != f || m !in tree.shards[f] {
        return false, [];
      }
      pieces := pieces + [tree.shards[f][m]];
    }
    ok := true;
  }

  method Compare<E(==)>(pieces: seq<Tensor<E>>, n: string, t: Tensor<E>) returns (ok: bool)
    requires Parse(n).None? ==> |pieces| > 0
    ensures ok <==> Agrees(pieces, n, t)
  {
    match Parse(n)
    case None => ok := pieces[0] == t;
    case Some(e) =>
      match TensorRule(e.projection, e.field)
      case Err(m) => ok := false;
      case Ok(None) =>
        ok := true;
        for i := 0 to |pieces|
          invariant ok <==> forall k :: 0 <= k < i ==> pieces[k] == t
        {
          ok := ok && pieces[i] == t;
        }
      case Ok(Some(d)) => ok := Cat(pieces, d) == Ok(t);
  }

  /** It accepts exactly the trees in which every source tensor checks out. */
  method Validate<E(==)>(src: Source<E>, tree: Tree<E>, tp: nat) returns (ok: bool)
    requires WellFormed(src)
    ensures ok <==> Accepted(src, tree, tp)
  {
    for i := 0 to |src.files|
      invariant forall f, n :: f in src.files[..i] && n in src.names[f] ==> Verified(src, tree, tp, f, n)
    {
      var f := src.files[i];
      assert f in src.files;
      var fine := ValidateShard(src, tree, tp, f);
      if !fine {
        return false;
      }
    }
    ok := true;
  }

  method ValidateShard<E(==)>(src: Source<E>, tree: Tree<E>, tp: nat, f: string) returns (ok: bool)
    requires WellFormed(src) && f in src.files
    ensures ok <==> forall n :: n in src.names[f] ==> Verified(src, tree, tp, f, n)
  {
    var names := src.names[f];
    if f !in tree.shards {
      assert names[0] in names && !Verified(src, tree, tp, f, names[0]);
      return false;
    }
    for j := 0 to |names|
      invariant forall n :: n in names[..j] ==> Verified(src, tree, tp, f, n)
    {
      var n := names[j];
      assert n in names;
      var found, pieces := Collect(tree, tp, f, n);
      if !found {
        assert !Verified(src, tree, tp, f, n);
        return false;
      }
      var same := Compare(pieces, n, src.tensors[n]);
      if !same {
        assert !Verified(src, tree, tp, f, n);
        return false;
      }
    }
    ok := true;
  }

  // --- What acceptance gives -----------------------------------------------------------------------------------------

  /** A source tensor from the output tree alone. */
  ghost function Recover<E>(tree: Tree<E>, tp: nat, f: string, n: string): Option<Tensor<E>>
    requires Present(tree, tp, f, n)
  {
    var pieces := PiecesIn(tree, tp, f, n);
    var split := if Parse(n).None? then None else
      var e := Parse(n).value;
      var rule := TensorRule(e.projection, e.field);
      if rule.Ok? then rule.value else None;
    if split.Some? then
      var r := Cat(pieces, split.value);
      if r.Ok? then Some(r.value) else None
    else if |pieces| > 0 then Some(pieces[0])
    else None
  }

  /** A split tensor's pieces all have the same extent. */
  ghost predicate Even<E>(pieces: seq<Tensor<E>>, n: string) {
    Parse(n).Some? ==>
      var rule := TensorRule(Parse(n).value.projection, Parse(n).value.field);
      rule.Ok? && rule.value.Some? && |pieces| > 0 && rule.value.value < |pieces[0].shape| ==>
        SameWidth(pieces, rule.value.value, pieces[0].shape[rule.value.value])
  }

  /** What is accepted is what the converter would write exactly if that is so: the validator compares the concatenation
      only. */
  lemma AcceptedSlicesIff<E>(src: Source<E>, tree: Tree<E>, tp: nat, f: string, n: string)
    requires Verified(src, tree, tp, f, n) && Valid(src.tensors[n])
    ensures Pieces(n, src.tensors[n], tp) == Ok(PiecesIn(tree, tp, f, n)) <==> Even(PiecesIn(tree, tp, f, n), n)
  {
    var pieces, t := PiecesIn(tree, tp, f, n), src.tensors[n];
    if Parse(n).None? {
      assert pieces == [t];
    } else {
      var rule := TensorRule(Parse(n).value.projection, Parse(n).value.field);
      if rule.value.Some? {
        SplitIff(pieces, rule.value.value, t);
      } else {
        assert pieces == seq(tp, r => t);
      }
    }
  }

  /** An expert tensor of which every rank gets a whole copy. */
  predicate Replicated(n: string) {
    Parse(n).Some? && TensorRule(Parse(n).value.projection, Parse(n).value.field) == Ok(None)
  }

  /** An accepted tensor can be rebuilt from the tree, except that with no ranks at all nothing is stored for a
      replicated tensor, and it is accepted all the same. */
  lemma LosslessIff<E>(src: Source<E>, tree: Tree<E>, tp: nat, f: string, n: string)
    requires Verified(src, tree, tp, f, n)
    ensures Recover(tree, tp, f, n) == Some(src.tensors[n]) <==> tp > 0 || !Replicated(n)
  {
  }

  ghost predicate Accepted<E>(src: Source<E>, tree: Tree<E>, tp: nat) {
    forall f, n :: f in src.files && f in src.names && n in src.names[f] ==> Verified(src, tree, tp, f, n)
  }

  /** A tree that is accepted for two sources of the same names tells nothing apart: their tensors are equal, those that
      are replicated over no ranks excepted. */
  lemma AcceptedDetermines<E>(src: Source<E>, src': Source<E>, tree: Tree<E>, tp: nat)
    requires WellFormed(src) && WellFormed(src') && src'.files == src.files && src'.names == src.names
    requires Accepted(src, tree, tp) && Accepted(src', tree, tp)
    ensures forall f, n :: f in src.files && n in src.names[f] && (tp > 0 || !Replicated(n)) ==>
              n in src.tensors && n in src'.tensors && src.tensors[n] == src'.tensors[n]
  {
    forall f, n | f in src.files && n in src.names[f] && (tp > 0 || !Replicated(n))
      ensures n in src.tensors && n in src'.tensors && src.tensors[n] == src'.tensors[n]
    {
      LosslessIff(src, tree, tp, f, n);
      LosslessIff(src', tree, tp, f, n);
    }
  }

  /** With no ranks a replicated tensor is accepted whatever it holds. */
  lemma NoRanksNoCheck<E>(src: Source<E>, tree: Tree<E>, f: string, n: string)
    requires n in src.tensors && f in tree.shards && Replicated(n)
    ensures Verified(src, tree, 0, f, n)
  {
    assert ExpectedNames(n, 0) == [];
  }

  /** Output i of tensor n is piece p. */
  ghost predicate PieceAt<E>(tree: Tree<E>, tp: nat, f: string, n: string, i: nat, p: Tensor<E>)
    requires f in tree.shards && i < |ExpectedNames(n, tp)|
  {
    var m := ExpectedNames(n, tp)[i];
    m in tree.index && tree.index[m] == f && m in tree.shards[f] && tree.shards[f][m] == p
  }

  lemma PresentIs<E>(tree: Tree<E>, tp: nat, f: string, n: string, pieces: seq<Tensor<E>>)
    requires f in tree.shards && |pieces| == |ExpectedNames(n, tp)|
    requires forall i :: 0 <= i < |pieces| ==> PieceAt(tree, tp, f, n, i, pieces[i])
    ensures Present(tree, tp, f, n) && PiecesIn(tree, tp, f, n) == pieces
  {
    forall i | 0 <= i < |ExpectedNames(n, tp)|
      ensures var m := ExpectedNames(n, tp)[i]; m in tree.index && tree.index[m] == f && m in tree.shards[f]
    {
      assert PieceAt(tree, tp, f, n, i, pieces[i]);
    }
    var found := PiecesIn(tree, tp, f, n);
    forall i | 0 <= i < |pieces|
      ensures found[i] == pieces[i]
    {
      assert PieceAt(tree, tp, f, n, i, pieces[i]);
    }
  }

  lemma WrittenPiece<E>(src: Source<E>, tree: Tree<E>, tp: nat, f: string, n: string, i: nat)
    requires WellFormed(src) && AllSliceable(src, tp) && Converted(src, tp, tree) && f in src.files && n in src.names[f]
    requires i < |ExpectedNames(n, tp)|
    ensures Sliceable(src, tp, f, n) && f in tree.shards
        && PieceAt(tree, tp, f, n, i, Pieces(n, src.tensors[n], tp).value[i])
  {
    assert Sliceable(src, tp, f, n);
    var x := Transform(f, n, src.tensors[n], tp).value[i];
    FileItemsAre(src, tp, src.files, x);
    NameItemsAre(src, tp, f, src.names[f], x);
    assert Stored(tree.shards[f], NameItems(src, tp, f, src.names[f]));
  }

  lemma WrittenPieces<E>(src: Source<E>, tree: Tree<E>, tp: nat, f: string, n: string)
    requires WellFormed(src) && AllSliceable(src, tp) && Converted(src, tp, tree) && f in src.files && n in src.names[f]
    ensures Sliceable(src, tp, f, n) && Present(tree, tp, f, n)
    ensures PiecesIn(tree, tp, f, n) == Pieces(n, src.tensors[n], tp).value
  {
    assert Sliceable(src, tp, f, n) && f in tree.shards;
    var pieces := Pieces(n, src.tensors[n], tp).value;
    forall i | 0 <= i < |pieces|
      ensures PieceAt(tree, tp, f, n, i, pieces[i])
    {
      WrittenPiece(src, tree, tp, f, n, i);
    }
    PresentIs(tree, tp, f, n, pieces);
  }

  lemma PiecesAgree<E>(n: string, t: Tensor<E>, tp: nat)
    requires Valid(t) && Pieces(n, t, tp).Ok?
    ensures Agrees(Pieces(n, t, tp).value, n, t)
  {
    if Parse(n).Some? {
      var rule := TensorRule(Parse(n).value.projection, Parse(n).value.field).value;
      if rule.Some? {
        RoundTrip(t, rule.value, tp);
      }
    }
  }

  /** What the converter wrote is always accepted. */
  lemma ConvertedIsAccepted<E>(src: Source<E>, tree: Tree<E>, tp: nat, f: string, n: string)
    requires WellFormed(src) && AllSliceable(src, tp) && Converted(src, tp, tree) && f in src.files && n in src.names[f]
    ensures Verified(src, tree, tp, f, n)
  {
    WrittenPieces(src, tree, tp, f, n);
    PiecesAgree(n, src.tensors[n], tp);
  }

  /** convert_checkpoint with validation: validation never turns a written tree down. */
  method ConvertAndValidate<E(==)>(src: Source<E>, tp: nat) returns (r: Result<Tree<E>>)
    requires WellFormed(src)
    ensures r.Ok? <==> tp >= 2 && Whole(src) && AllSliceable(src, tp) && !Clash(src, tp)
    ensures r.Ok? ==> Accepted(src, r.value, tp)
  {
    var converted, plan, total := Convert(src, tp);
    if converted.Err? {
      return converted;
    }
    forall f, n | f in src.files && n in src.names[f]
      ensures Verified(src, converted.value, tp, f, n)
    {
      ConvertedIsAccepted(src, converted.value, tp, f, n);
    }
    var accepted := Validate(src, converted.value, tp);
    r := if accepted then converted else Err("validation failed");
  }
}
