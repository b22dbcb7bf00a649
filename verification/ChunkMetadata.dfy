/**
 The host-side planner that cuts every prefill request into chunks ending on block
 boundaries, and the block indices derived from the number of computed tokens.
 */
module ChunkMetadata {
  import opened Arith

  function CeilDiv(a: nat, d: nat): nat
    requires d > 0
  {
    (a + d - 1) / d
  }

  /** Tokens of a request that are done once its first `c` chunks are: with `computed` tokens
      behind it, chunk c closes block computed / size + c or the request, whichever comes first. */
  function Done(size: nat, computed: nat, newToks: nat, c: nat): nat
    requires size > 0
  {
    if c == 0 then 0
    else
      DivBounds(computed, size); MulMonotone(computed / size + 1, computed / size + c, size);
      Min((computed / size + c) * size, computed + newToks) - computed
  }

  /** One chunk per block touched. A request without new tokens gets an empty chunk if it stands
      inside a block and none otherwise. */
  function ChunkCount(size: nat, computed: nat, newToks: nat): nat
    requires size > 0
  {
    if newToks == 0 then (if computed % size == 0 then 0 else 1)
    else
      DivMonotone(computed, computed + newToks - 1, size);
      (computed + newToks - 1) / size - computed / size + 1
  }

  lemma DivMonotone(a: nat, b: nat, d: nat)
    requires d > 0 && a <= b
    ensures a / d <= b / d
  {
    DivBounds(a, d);
    DivBounds(b, d);
    if b / d < a / d {
      MulMonotone(b / d + 1, a / d, d);
    }
  }

  function FirstChunk(last: seq<int>, req: nat): int
    requires req <= |last|
  {
    if req == 0 then 0 else last[req - 1] + 1
  }

  /** Request `req` owns chunks FirstChunk .. last[req] and `cu` places their boundaries. */
  ghost predicate Placed(size: nat, computed: nat, newToks: nat, origin: int, cu: seq<nat>, first: int, last: int)
    requires size > 0
  {
    && 0 <= first
    && last == first + ChunkCount(size, computed, newToks) - 1
    && last + 1 < |cu|
    && forall c {:trigger Done(size, computed, newToks, c)} :: 0 <= c <= last + 1 - first ==>
      cu[first + c] == origin + Done(size, computed, newToks, c)
  }

  lemma FirstPartialChunk(size: nat, computed: nat, newToks: nat)
    requires size > 0 && computed % size != 0
    ensures CeilDiv(computed, size) == computed / size + 1
    ensures Done(size, computed, newToks, 1) == Min(CeilDiv(computed, size) * size - computed, newToks)
  {
    DivBounds(computed, size);
    assert computed == computed / size * size + computed % size;
    DivUnique(computed + size - 1, size, computed / size + 1);
  }

  /** A chunk that starts on a block boundary takes min(size, what is left). */
  lemma NextChunk(size: nat, computed: nat, newToks: nat, c: nat)
    requires size > 0 && newToks > 0
    requires c < ChunkCount(size, computed, newToks)
    requires c > 0 || computed % size == 0
    ensures Done(size, computed, newToks, c) <= newToks
    ensures Done(size, computed, newToks, c + 1)
         == Done(size, computed, newToks, c) + Min(size, newToks - Done(size, computed, newToks, c))
  {
    var q := computed / size;
    assert computed == q * size + computed % size;
    DivBounds(computed + newToks - 1, size);
    MulMonotone(q + c, (computed + newToks - 1) / size, size);
    assert (q + c + 1) * size == (q + c) * size + size;
    if c == 0 {
      assert Done(size, computed, newToks, 1) == Min((q + 1) * size, computed + newToks) - computed;
    }
  }

  /** rest tokens from block boundary e on reach into block e + (rest - 1) / size. */
  lemma BlocksAhead(size: nat, e: nat, rest: nat)
    requires size > 0 && rest > 0
    ensures (e * size + rest - 1) / size == e + (rest - 1) / size && CeilDiv(rest, size) == (rest - 1) / size + 1
  {
    var k := (rest - 1) / size;
    DivBounds(rest - 1, size);
    assert (e + k) * size == e * size + k * size;
    assert (e + k + 1) * size == e * size + (k + 1) * size;
    DivUnique(e * size + rest - 1, size, e + k);
    DivUnique(rest + size - 1, size, k + 1);
  }

  /** The planner's leading partial chunk plus cdiv(rest, size) full ones is the chunk count. */
  lemma CountSplits(size: nat, computed: nat, newToks: nat)
    requires size > 0
    ensures var lead := if computed % size == 0 then 0 else 1;
            && Done(size, computed, newToks, lead) <= newToks
            && lead + CeilDiv(newToks - Done(size, computed, newToks, lead), size)
               == ChunkCount(size, computed, newToks)
  {
    var q := computed / size;
    assert computed == q * size + computed % size;
    DivBounds(computed, size);
    var lead := if computed % size == 0 then 0 else 1;
    var rest := newToks - Done(size, computed, newToks, lead);
    if newToks == 0 || rest == 0 {
      DivUnique(size - 1, size, 0);
      if newToks > 0 {
        DivUnique(computed + newToks - 1, size, q);
      }
    } else {
      assert computed + newToks == (q + lead) * size + rest;
      BlocksAhead(size, q + lead, rest);
    }
  }

  lemma AllDone(size: nat, computed: nat, newToks: nat)
    requires size > 0
    ensures Done(size, computed, newToks, ChunkCount(size, computed, newToks)) == newToks
  {
    DivBounds(computed, size);
    if newToks > 0 {
      DivBounds(computed + newToks - 1, size);
    }
  }

  /** The chunks of one request: finish the current block first, then one block at a time. All its
      new tokens are used up, as the planner asserts. */
  method AppendRequest(size: nat, req: nat, computed: nat, newToks: nat, cu0: seq<nat>, seqIdx0: seq<nat>, pos0: nat)
      returns (cu: seq<nat>, seqIdx: seq<nat>, pos: nat)
    requires size > 0 && |cu0| == |seqIdx0|
    ensures pos == pos0 + newToks
    ensures |cu| == |seqIdx| && cu0 <= cu && seqIdx0 <= seqIdx
    ensures Placed(size, computed, newToks, pos0, cu + [pos], |cu0|, |cu| - 1)
    ensures forall k :: |seqIdx0| <= k < |seqIdx| ==> seqIdx[k] == req
  {
    cu, seqIdx, pos := cu0, seqIdx0, pos0;
    var left := newToks;
    ghost var lead := if computed % size == 0 then 0 else 1;
    CountSplits(size, computed, newToks);
    if computed % size != 0 {
      FirstPartialChunk(size, computed, newToks);
      seqIdx := seqIdx + [req];
      cu := cu + [pos];
      var len := Min(CeilDiv(computed, size) * size - computed, left);
      pos := pos + len;
      left := left - len;
    }
    var count := CeilDiv(left, size);
    for chunk := 0 to count
      invariant left == newToks - Done(size, computed, newToks, lead + chunk)
      invariant pos == pos0 + Done(size, computed, newToks, lead + chunk)
      invariant |cu| == |seqIdx| == |cu0| + lead + chunk
      invariant cu0 <= cu && seqIdx0 <= seqIdx
      invariant forall c {:trigger Done(size, computed, newToks, c)} :: 0 <= c < lead + chunk ==>
        cu[|cu0| + c] == pos0 + Done(size, computed, newToks, c)
      invariant forall k :: |seqIdx0| <= k < |seqIdx| ==> seqIdx[k] == req
    {
      NextChunk(size, computed, newToks, lead + chunk);
      seqIdx := seqIdx + [req];
      cu := cu + [pos];
      var len := Min(size, left);
      pos := pos + len;
      left := left - len;
    }
    AllDone(size, computed, newToks);
    assert left == 0;
  }

  ghost predicate Nondecreasing(s: seq<nat>) {
    forall i, j :: 0 <= i <= j < |s| ==> s[i] <= s[j]
  }

  /** Everything said about one request of a batch. */
  ghost predicate RequestPlaced(size: nat, computed: seq<nat>, queryStartLoc: seq<nat>, req: nat,
                                cu: seq<nat>, seqIdx: seq<nat>, last: seq<int>)
    requires size > 0 && req < |computed| && req < |last| && |queryStartLoc| == |computed| + 1
    requires Nondecreasing(queryStartLoc)
  {
    && Placed(size, computed[req], queryStartLoc[req + 1] - queryStartLoc[req],
              queryStartLoc[req] - queryStartLoc[0], cu, FirstChunk(last, req), last[req])
    && last[req] < |seqIdx|
    && forall k :: FirstChunk(last, req) <= k <= last[req] ==> seqIdx[k] == req
  }

  ghost predicate AllPlaced(size: nat, computed: seq<nat>, queryStartLoc: seq<nat>, n: nat,
                            cu: seq<nat>, seqIdx: seq<nat>, last: seq<int>)
    requires size > 0 && n <= |computed| && n <= |last| && |queryStartLoc| == |computed| + 1
    requires Nondecreasing(queryStartLoc)
  {
    forall req {:trigger RequestPlaced(size, computed, queryStartLoc, req, cu, seqIdx, last)} :: 0 <= req < n ==>
      RequestPlaced(size, computed, queryStartLoc, req, cu, seqIdx, last)
  }

  /** The chunk planner over a whole prefill batch. */
  method ComputeChunkMetadata(size: nat, computed: seq<nat>, queryStartLoc: seq<nat>)
      returns (cu: seq<nat>, seqIdx: seq<nat>, last: seq<int>)
    requires size > 0
    requires |queryStartLoc| == |computed| + 1
    requires Nondecreasing(queryStartLoc)
    ensures |last| == |computed| && |cu| == |seqIdx| + 1 && FirstChunk(last, |last|) == |seqIdx|
    ensures AllPlaced(size, computed, queryStartLoc, |computed|, cu, seqIdx, last)
  {
    cu, seqIdx, last := [], [], [];
    var pos := 0;
    for req := 0 to |computed|
      invariant |last| == req && |cu| == |seqIdx| == FirstChunk(last, req)
      invariant pos == queryStartLoc[req] - queryStartLoc[0]
      invariant AllPlaced(size, computed, queryStartLoc, req, cu + [pos], seqIdx, last)
    {
      ghost var cu0, seqIdx0, pos0, last0 := cu, seqIdx, pos, last;
      cu, seqIdx, pos := AppendRequest(size, req, computed[req], queryStartLoc[req + 1] - queryStartLoc[req],
                                       cu, seqIdx, pos);
      last := last + [|cu| - 1];
      assert (cu + [pos])[|cu0|] == pos0 + Done(size, computed[req], queryStartLoc[req + 1] - queryStartLoc[req], 0);
      AddPlaced(size, computed, queryStartLoc, req, cu0 + [pos0], seqIdx0, last0, cu + [pos], seqIdx, last);
    }
    cu := cu + [pos];
  }

  lemma AddPlaced(size: nat, computed: seq<nat>, queryStartLoc: seq<nat>, n: nat,
                  cu: seq<nat>, seqIdx: seq<nat>, last: seq<int>, cu': seq<nat>, seqIdx': seq<nat>, last': seq<int>)
    requires size > 0 && n < |computed| && n == |last| && |queryStartLoc| == |computed| + 1
    requires Nondecreasing(queryStartLoc)
    requires AllPlaced(size, computed, queryStartLoc, n, cu, seqIdx, last)
    requires cu <= cu' && seqIdx <= seqIdx' && last <= last' && |last'| == n + 1
    requires |seqIdx'| == last'[n] + 1 && |seqIdx| == FirstChunk(last, n)
    requires Placed(size, computed[n], queryStartLoc[n + 1] - queryStartLoc[n],
                    queryStartLoc[n] - queryStartLoc[0], cu', |seqIdx|, last'[n])
    requires forall k :: |seqIdx| <= k < |seqIdx'| ==> seqIdx'[k] == n
    ensures AllPlaced(size, computed, queryStartLoc, n + 1, cu', seqIdx', last')
  {
    forall req | 0 <= req < n + 1
      ensures RequestPlaced(size, computed, queryStartLoc, req, cu', seqIdx', last')
    {
      if req < n {
        assert RequestPlaced(size, computed, queryStartLoc, req, cu, seqIdx, last);
        assert last'[req] == last[req] && FirstChunk(last', req) == FirstChunk(last, req);
        KeptByExtension(size, computed[req], queryStartLoc[req + 1] - queryStartLoc[req],
                        queryStartLoc[req] - queryStartLoc[0], cu, cu', FirstChunk(last, req), last[req]);
      }
    }
  }

  lemma KeptByExtension(size: nat, computed: nat, newToks: nat, origin: int, cu: seq<nat>, more: seq<nat>, first: int,
                        last: int)
    requires size > 0
    requires Placed(size, computed, newToks, origin, cu, first, last)
    requires cu <= more
    ensures Placed(size, computed, newToks, origin, more, first, last)
  {
  }

  /** Block indices handed to the kernel (floor divisions, clamped at 0). */
  function LastComputedBlock(size: nat, computed: nat): (b: nat)
    requires size > 0
    ensures computed > 0 ==> b * size < computed <= (b + 1) * size
    ensures computed == 0 ==> b == 0
  {
    var d := (computed + size - 1) / size - 1;
    DivBounds(computed + size - 1, size);
    if d < 0 then 0 else d
  }

  function FirstScheduledBlock(size: nat, computed: nat): (b: nat)
    requires size > 0
    ensures b == computed / size
  {
    DivBounds(computed, size);
    DivUnique(computed + size, size, computed / size + 1);
    (computed + size) / size - 1
  }

  function LastScheduledBlock(size: nat, seqLen: nat): (b: nat)
    requires size > 0
    ensures seqLen > 0 ==> b == (seqLen - 1) / size
  {
    if seqLen > 0 then DivBounds(seqLen - 1, size); DivUnique(seqLen + size - 1, size, (seqLen - 1) / size + 1);
      (seqLen + size - 1) / size - 1
    else 0
  }
}
