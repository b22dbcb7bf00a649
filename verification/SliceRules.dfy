/** Which tensors are sliced, which are copied to every rank, and what comes out of one tensor. */
module SliceRules {
  import opened Arith
  import opened Wrappers
  import opened TensorSlices
  import opened ExpertNames

  /** A checkpoint: shard files in processing order, the tensors of each shard in index order, and their values. */
  datatype Source<E> = Source(files: seq<string>, names: map<string, seq<string>>, tensors: map<string, Tensor<E>>)

  /** One output tensor: slice `rank` of tensor `source`, stored as `name` in `file`. */
  datatype Item<E> = Item(file: string, source: string, rank: nat, name: string, tensor: Tensor<E>)

  predicate NoRepeats<T(==)>(s: seq<T>) {
    forall i, j :: 0 <= i < j < |s| ==> s[i] != s[j]
  }

  /** The index is a dictionary: every tensor has one entry and so one shard. */
  predicate WellFormed<E>(src: Source<E>) {
    && NoRepeats(src.files)
    && (forall f :: f in src.files ==> f in src.names && |src.names[f]| > 0 && NoRepeats(src.names[f]))
    && (forall f, g, n :: f in src.files && g in src.files && f != g && n in src.names[f] ==> n !in src.names[g])
    && (forall f, n :: f in src.files && n in src.names[f] ==> n in src.tensors && Valid(src.tensors[n]))
  }

  /** The dimension to split, or none to replicate. */
  function TensorRule(projection: string, field: string): Result<Option<nat>> {
    if field == "mul1" then Err("the codebook is not supported")
    else if field == "mcg" then Ok(None)
    else if projection == "gate_proj" || projection == "up_proj" then
      Ok(if field == "trellis" then Some(1) else if field == "svh" then Some(0) else None)
    else if projection == "down_proj" then
      Ok(if field == "trellis" || field == "suh" then Some(0) else None)
    else Err("unsupported projection")
  }

  function ExpectedNames(name: string, tp: nat): seq<string> {
    match Parse(name)
    case None => [name]
    case Some(e) => seq(tp, r requires 0 <= r < tp => RankedName(e.prefix, r, e.field))
  }

  /** The output tensors of one source tensor, in rank order. */
  function Pieces<E>(name: string, t: Tensor<E>, tp: nat): (r: Result<seq<Tensor<E>>>)
    requires Valid(t)
    ensures r.Ok? ==> |r.value| == |ExpectedNames(name, tp)|
  {
    match Parse(name)
    case None => Ok([t])
    case Some(e) =>
      match TensorRule(e.projection, e.field)
      case Err(m) => Err(m)
      case Ok(None) => Ok(seq(tp, r => t))
      case Ok(Some(d)) => SplitTensor(t, d, tp)
  }

  function Transform<E>(file: string, name: string, t: Tensor<E>, tp: nat): (r: Result<seq<Item<E>>>)
    requires Valid(t)
    ensures r.Ok? <==> Pieces(name, t, tp).Ok?
    ensures r.Ok? ==> |r.value| == |ExpectedNames(name, tp)|
    ensures r.Ok? ==> forall i :: 0 <= i < |r.value| ==>
              r.value[i] == Item(file, name, i, ExpectedNames(name, tp)[i], Pieces(name, t, tp).value[i])
  {
    var pieces := Pieces(name, t, tp);
    if pieces.Err? then Err(pieces.message)
    else
      var names := ExpectedNames(name, tp);
      Ok(seq(|names|, i requires 0 <= i < |names| => Item(file, name, i, names[i], pieces.value[i])))
  }

  // --- All outputs, in the order they are written --------------------------------------------------------------------

  predicate Sliceable<E>(src: Source<E>, tp: nat, f: string, n: string) {
    n in src.tensors && Valid(src.tensors[n]) && Transform(f, n, src.tensors[n], tp).Ok?
  }

  predicate AllSliceable<E>(src: Source<E>, tp: nat) {
    forall f, n :: f in src.files && f in src.names && n in src.names[f] ==> Sliceable(src, tp, f, n)
  }

  ghost function NameItems<E>(src: Source<E>, tp: nat, f: string, names: seq<string>): seq<Item<E>>
    requires forall n :: n in names ==> Sliceable(src, tp, f, n)
  {
    if names == [] then []
    else
      var last := names[|names| - 1];
      assert last in names && Sliceable(src, tp, f, last);
      NameItems(src, tp, f, names[..|names| - 1]) + Transform(f, last, src.tensors[last], tp).value
  }

  ghost function FileItems<E>(src: Source<E>, tp: nat, files: seq<string>): seq<Item<E>>
    requires forall f :: f in files ==> f in src.names
    requires forall f, n :: f in files && n in src.names[f] ==> Sliceable(src, tp, f, n)
  {
    if files == [] then []
    else
      var last := files[|files| - 1];
      FileItems(src, tp, files[..|files| - 1]) + NameItems(src, tp, last, src.names[last])
  }

  function SumBytes<E>(items: seq<Item<E>>): nat {
    if items == [] then 0 else SumBytes(items[..|items| - 1]) + Bytes(items[|items| - 1].tensor)
  }

  lemma {:induction false} SumBytesConcat<E>(a: seq<Item<E>>, b: seq<Item<E>>)
    ensures SumBytes(a + b) == SumBytes(a) + SumBytes(b)
  {
    if b == [] {
      assert a + b == a;
    } else {
      SumBytesConcat(a, b[..|b| - 1]);
      assert (a + b)[..|a + b| - 1] == a + b[..|b| - 1];
    }
  }

  predicate DistinctNames<E>(items: seq<Item<E>>) {
    forall i, j :: 0 <= i < j < |items| ==> items[i].name != items[j].name
  }

  // --- When two outputs have the same name ---------------------------------------------------------------------------

  function OutName(source: string, rank: nat): string {
    match Parse(source)
    case None => source
    case Some(e) => RankedName(e.prefix, rank, e.field)
  }

  ghost predicate IsItem<E>(src: Source<E>, tp: nat, i: Item<E>) {
    && i.file in src.files && i.file in src.names && i.source in src.names[i.file]
       && Sliceable(src, tp, i.file, i.source)
    && i in Transform(i.file, i.source, src.tensors[i.source], tp).value
  }

  ghost predicate In<E>(src: Source<E>, f: string, n: string) {
    f in src.files && f in src.names && n in src.names[f]
  }

  ghost predicate ClashAt<E>(src: Source<E>, tp: nat, f: string, n: string, r: nat, g: string) {
    In(src, f, n) && Parse(n).Some? && r < tp && In(src, g, OutName(n, r)) && Parse(OutName(n, r)).None?
  }

  /** An ordinary tensor of the source has the name of an expert tensor's slice. */
  ghost predicate Clash<E>(src: Source<E>, tp: nat) {
    exists f: string, n: string, r: nat, g: string :: ClashAt(src, tp, f, n, r, g)
  }

  lemma {:induction false} NameItemsAre<E>(src: Source<E>, tp: nat, f: string, names: seq<string>, i: Item<E>)
    requires forall n :: n in names ==> Sliceable(src, tp, f, n)
    ensures i in NameItems(src, tp, f, names) <==>
              i.file == f && i.source in names && i in Transform(f, i.source, src.tensors[i.source], tp).value
  {
    if names != [] {
      var last, front := names[|names| - 1], names[..|names| - 1];
      assert last in names;
      NameItemsAre(src, tp, f, front, i);
      assert forall n :: n in names <==> n in front || n == last;
    }
  }

  lemma {:induction false} FileItemsAre<E>(src: Source<E>, tp: nat, files: seq<string>, i: Item<E>)
    requires WellFormed(src) && AllSliceable(src, tp) && forall f :: f in files ==> f in src.files
    ensures i in FileItems(src, tp, files) <==> i.file in files && IsItem(src, tp, i)
  {
    if files != [] {
      var last, front := files[|files| - 1], files[..|files| - 1];
      FileItemsAre(src, tp, front, i);
      NameItemsAre(src, tp, last, src.names[last], i);
      assert forall f :: f in files <==> f in front || f == last;
    }
  }

  /** No (source, rank) pair comes out twice. */
  ghost predicate DistinctOrigins<E>(items: seq<Item<E>>) {
    forall i, j :: 0 <= i < j < |items| ==> items[i].source != items[j].source || items[i].rank != items[j].rank
  }

  lemma {:induction false} NameOrigins<E>(src: Source<E>, tp: nat, f: string, names: seq<string>)
    requires NoRepeats(names) && forall n :: n in names ==> Sliceable(src, tp, f, n)
    ensures DistinctOrigins(NameItems(src, tp, f, names))
  {
    if names != [] {
      var last, front := names[|names| - 1], names[..|names| - 1];
      assert last in names;
      NameOrigins(src, tp, f, front);
      var a, b := NameItems(src, tp, f, front), Transform(f, last, src.tensors[last], tp).value;
      forall i | 0 <= i < |a|
        ensures a[i].source != last
      {
        NameItemsAre(src, tp, f, front, a[i]);
      }
    }
  }

  lemma {:induction false} FileOrigins<E>(src: Source<E>, tp: nat, files: seq<string>)
    requires WellFormed(src) && AllSliceable(src, tp) && NoRepeats(files) && forall f :: f in files ==> f in src.files
    ensures DistinctOrigins(FileItems(src, tp, files))
  {
    if files != [] {
      var last, front := files[|files| - 1], files[..|files| - 1];
      FileOrigins(src, tp, front);
      NameOrigins(src, tp, last, src.names[last]);
      var a, b := FileItems(src, tp, front), NameItems(src, tp, last, src.names[last]);
      forall i, j | 0 <= i < |a| && 0 <= j < |b|
        ensures a[i].source != b[j].source
      {
        FileItemsAre(src, tp, front, a[i]);
        NameItemsAre(src, tp, last, src.names[last], b[j]);
      }
    }
  }

  lemma ItemName<E>(src: Source<E>, tp: nat, i: Item<E>)
    requires IsItem(src, tp, i)
    ensures i.name == OutName(i.source, i.rank) && (Parse(i.source).None? ==> i.rank == 0)
        && (Parse(i.source).Some? ==> i.rank < tp)
  {
  }

  lemma SameName<E>(src: Source<E>, tp: nat, i: Item<E>, j: Item<E>)
    requires IsItem(src, tp, i) && IsItem(src, tp, j) && i.name == j.name
    ensures Clash(src, tp) || (i.source == j.source && i.rank == j.rank)
  {
    ItemName(src, tp, i);
    ItemName(src, tp, j);
    if Parse(i.source).Some? && Parse(j.source).Some? {
      RankedInjective(i.source, i.rank, j.source, j.rank);
    } else if Parse(i.source).Some? {
      assert ClashAt(src, tp, i.file, i.source, i.rank, j.file);
    } else if Parse(j.source).Some? {
      assert ClashAt(src, tp, j.file, j.source, j.rank, i.file);
    }
  }

  lemma ClashRepeats<E>(src: Source<E>, tp: nat, f: string, n: string, r: nat, g: string)
    requires WellFormed(src) && AllSliceable(src, tp) && ClashAt(src, tp, f, n, r, g)
    ensures !DistinctNames(FileItems(src, tp, src.files))
  {
    var m := OutName(n, r);
    assert Sliceable(src, tp, f, n) && Sliceable(src, tp, g, m);
    var a, b := Transform(f, n, src.tensors[n], tp).value[r], Transform(g, m, src.tensors[m], tp).value[0];
    FileItemsAre(src, tp, src.files, a);
    FileItemsAre(src, tp, src.files, b);
    assert a.name == b.name && a.source != b.source;
  }

  /** Output names repeat exactly when an ordinary source tensor already has a slice's name. */
  lemma ClashIff<E>(src: Source<E>, tp: nat)
    requires WellFormed(src) && AllSliceable(src, tp)
    ensures DistinctNames(FileItems(src, tp, src.files)) <==> !Clash(src, tp)
  {
    if Clash(src, tp) {
      var f: string, n: string, r: nat, g: string :| ClashAt(src, tp, f, n, r, g);
      ClashRepeats(src, tp, f, n, r, g);
    } else {
      var items := FileItems(src, tp, src.files);
      FileOrigins(src, tp, src.files);
      forall i, j | 0 <= i < j < |items|
        ensures items[i].name != items[j].name
      {
        FileItemsAre(src, tp, src.files, items[i]);
        FileItemsAre(src, tp, src.files, items[j]);
        if items[i].name == items[j].name {
          SameName(src, tp, items[i], items[j]);
        }
      }
    }
  }

  // --- Bytes ---------------------------------------------------------------------------------------------------------

  /** How often a tensor's bytes are written: sliced and ordinary tensors once, replicated ones once per rank. */
  function Copies(name: string, tp: nat): nat {
    match Parse(name)
    case None => 1
    case Some(e) => if TensorRule(e.projection, e.field) == Ok(None) then tp else 1
  }

  lemma {:induction false} SumEqual<E>(items: seq<Item<E>>, b: nat)
    requires forall i :: 0 <= i < |items| ==> Bytes(items[i].tensor) == b
    ensures SumBytes(items) == |items| * b
  {
    if items != [] {
      SumEqual(items[..|items| - 1], b);
      assert |items| * b == (|items| - 1) * b + b;
    }
  }

  /** The bytes written for one tensor. */
  lemma TransformBytes<E>(f: string, name: string, t: Tensor<E>, tp: nat)
    requires Valid(t) && Transform(f, name, t, tp).Ok?
    ensures SumBytes(Transform(f, name, t, tp).value) == Copies(name, tp) * Bytes(t)
  {
    var items := Transform(f, name, t, tp).value;
    if Parse(name).Some? && TensorRule(Parse(name).value.projection, Parse(name).value.field) != Ok(None) {
      var d := TensorRule(Parse(name).value.projection, Parse(name).value.field).value.value;
      assert |items| == tp > 0;
      var b := Bytes(items[0].tensor);
      SliceBytes(t, d, tp, 0);
      forall i | 0 <= i < tp
        ensures Bytes(items[i].tensor) == b
      {
        assert items[i].tensor == Slice(t, d, tp, i);
      }
      SumEqual(items, b);
    } else {
      SumEqual(items, Bytes(t));
    }
  }
}
