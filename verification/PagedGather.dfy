/** Gathering the context rows of several requests through their page tables. */
module PagedGather {
  import opened Arith

  /** The inputs: the cache's rows, pages after one another; each request's page table and window start; and the running
      sums of the window lengths. */
  datatype Batch<R> = Batch(cache: seq<R>, page: nat, tables: seq<seq<nat>>, starts: seq<nat>, cu: seq<int>)

  function Len<R>(b: Batch<R>, i: nat): int
    requires i + 1 < |b.cu|
  {
    b.cu[i + 1] - b.cu[i]
  }

  function Requests<R>(b: Batch<R>): nat {
    if |b.cu| == 0 then 0 else Min(|b.starts|, |b.cu| - 1)
  }

  /** Where row p of a request lives. */
  function Slot(page: nat, table: seq<nat>, p: nat): nat
    requires page > 0 && 0 <= p / page < |table|
  {
    table[p / page] * page + p % page
  }

  predicate Mapped(cacheRows: nat, page: nat, table: seq<nat>, p: nat) {
    page > 0 && 0 <= p / page < |table| && Slot(page, table, p) < cacheRows
  }

  /** Every row of every window is in its page table and in the cache. */
  ghost predicate InRange<R>(b: Batch<R>) {
    && b.page > 0 && |b.tables| >= Requests(b)
    && forall i, p :: 0 <= i < Requests(b) && b.starts[i] <= p < b.starts[i] + Len(b, i) ==>
         Mapped(|b.cache|, b.page, b.tables[i], p)
  }

  // --- Reference -----------------------------------------------------------------------------------------------------

  /** Rows [start, start + n) of a request. */
  function Window<R>(cache: seq<R>, page: nat, table: seq<nat>, start: nat, n: nat): (r: seq<R>)
    requires forall p :: start <= p < start + n ==> Mapped(|cache|, page, table, p)
    ensures |r| == n
  {
    seq(n, k requires 0 <= k < n => assert Mapped(|cache|, page, table, start + k); cache[Slot(page, table, start + k)])
  }

  function Rows<R>(b: Batch<R>, i: nat): int
    requires i < Requests(b)
  {
    if Len(b, i) <= 0 then 0 else Len(b, i)
  }

  function WindowOf<R>(b: Batch<R>, i: nat): (r: seq<R>)
    requires InRange(b) && i < Requests(b)
    ensures |r| == Rows(b, i)
  {
    Window(b.cache, b.page, b.tables[i], b.starts[i], Rows(b, i))
  }

  /** The windows of the first n requests, one after the other. */
  ghost function Gathered<R>(b: Batch<R>, n: nat): seq<R>
    requires InRange(b) && n <= Requests(b)
  {
    if n == 0 then []
    else Gathered(b, n - 1) + WindowOf(b, n - 1)
  }

  // --- gather_mla_context_cache_cpu ----------------------------------------------------------------------------------

  lemma {:induction false} GatheredGrows<R>(b: Batch<R>, m: nat, n: nat)
    requires InRange(b) && m <= n <= Requests(b)
    ensures |Gathered(b, m)| <= |Gathered(b, n)| && Gathered(b, n)[..|Gathered(b, m)|] == Gathered(b, m)
    decreases n - m
  {
    if m < n {
      GatheredGrows(b, m, n - 1);
    }
  }

  /** flat_cache[slots]: block and offset of every position, looked up. */
  method Fetch<R>(b: Batch<R>, i: nat, len: nat) returns (rows: seq<R>)
    requires InRange(b) && i < Requests(b) && len == Len(b, i)
    ensures rows == WindowOf(b, i)
  {
    rows := [];
    for k := 0 to len
      invariant rows == WindowOf(b, i)[..k]
    {
      var position := b.starts[i] + k;
      assert Mapped(|b.cache|, b.page, b.tables[i], position);
      var blockId := b.tables[i][position / b.page];
      var offset := position % b.page;
      var slot := blockId * b.page + offset;
      rows := rows + [b.cache[slot]];
    }
  }

  method Gather<R>(b: Batch<R>, dst: array<R>)
    requires InRange(b) && |Gathered(b, Requests(b))| <= dst.Length
    modifies dst
    ensures dst[..] == Gathered(b, Requests(b)) + old(dst[..])[|Gathered(b, Requests(b))|..]
  {
    var outStart := 0;
    var n := Requests(b);
    ghost var was, done := dst[..], [];
    for i := 0 to n
      invariant done == Gathered(b, i) && outStart == |done| <= dst.Length == |was| && dst[..] == done + was[outStart..]
    {
      NextWindow(b, i);
      var len := Len(b, i);
      if len <= 0 {
        continue;
      }
      var rows := Fetch(b, i, len);
      CopyInto(dst, outStart, rows);
      Spliced(done, rows, was);
      done, outStart := done + rows, outStart + len;
    }
  }

  lemma NextWindow<R>(b: Batch<R>, i: nat)
    requires InRange(b) && i < Requests(b)
    ensures Gathered(b, i + 1) == Gathered(b, i) + WindowOf(b, i) && |Gathered(b, i + 1)| <= |Gathered(b, Requests(b))|
    ensures Len(b, i) <= 0 ==> Gathered(b, i + 1) == Gathered(b, i)
  {
    GatheredGrows(b, i + 1, Requests(b));
  }

  lemma Spliced<R>(done: seq<R>, rows: seq<R>, was: seq<R>)
    requires |done| + |rows| <= |was|
    ensures var now := done + was[|done|..];
            now[..|done|] + rows + now[|done| + |rows|..] == (done + rows) + was[|done + rows|..]
  {
  }

  /** dst[at : at + len(rows)].copy_(rows) */
  method CopyInto<R>(dst: array<R>, at: nat, rows: seq<R>)
    requires at + |rows| <= dst.Length
    modifies dst
    ensures dst[..] == old(dst[..])[..at] + rows + old(dst[..])[at + |rows|..]
  {
    ghost var was := dst[..];
    for k := 0 to |rows|
      invariant forall j :: 0 <= j < dst.Length ==> dst[j] == if at <= j < at + k then rows[j - at] else was[j]
    {
      dst[at + k] := rows[k];
    }
  }

  // --- Where the rows land -------------------------------------------------------------------------------------------

  /** Request n's rows start at offset cu[n] - cu[0] exactly when no earlier length is negative. */
  lemma {:induction false} OffsetIff<R>(b: Batch<R>, n: nat)
    requires InRange(b) && n <= Requests(b) && |b.cu| > 0
    ensures |Gathered(b, n)| >= b.cu[n] - b.cu[0]
    ensures |Gathered(b, n)| == b.cu[n] - b.cu[0] <==> forall i :: 0 <= i < n ==> Len(b, i) >= 0
  {
    if n > 0 {
      OffsetIff(b, n - 1);
    }
  }

  /** Behind the rows of the requests before it, request i's window stands in the output as it is. */
  lemma LandsAt<R>(b: Batch<R>, i: nat)
    requires InRange(b) && i < Requests(b)
    ensures |Gathered(b, i)| + |WindowOf(b, i)| <= |Gathered(b, Requests(b))|
    ensures Gathered(b, Requests(b))[|Gathered(b, i)|..|Gathered(b, i)| + |WindowOf(b, i)|] == WindowOf(b, i)
  {
    GatheredGrows(b, i + 1, Requests(b));
    assert Gathered(b, i + 1) == Gathered(b, i) + WindowOf(b, i);
    Middle(Gathered(b, Requests(b)), Gathered(b, i), WindowOf(b, i));
  }

  lemma Middle<R>(all: seq<R>, x: seq<R>, y: seq<R>)
    requires |x| + |y| <= |all| && all[..|x| + |y|] == x + y
    ensures all[|x|..|x| + |y|] == y
  {
    var front := all[..|x| + |y|];
    assert forall k :: 0 <= k < |y| ==> y[k] == front[|x| + k];
  }

  /** The cache holds the rows of the first n requests through their page tables. */
  ghost predicate HoldsRows<R>(b: Batch<R>, rows: seq<seq<R>>, n: nat)
    requires InRange(b) && n <= Requests(b)
  {
    && n <= |rows|
    && (forall i :: 0 <= i < n ==> b.starts[i] + Rows(b, i) <= |rows[i]|)
    && forall i, p :: 0 <= i < n && 0 <= p < |rows[i]| ==>
         Mapped(|b.cache|, b.page, b.tables[i], p) && b.cache[Slot(b.page, b.tables[i], p)] == rows[i][p]
  }

  /** Each request's slice of its rows, one after the other. */
  ghost function Slices<R>(b: Batch<R>, rows: seq<seq<R>>, n: nat): seq<R>
    requires InRange(b) && n <= Requests(b) && HoldsRows(b, rows, n)
  {
    if n == 0 then []
    else Slices(b, rows, n - 1) + rows[n - 1][b.starts[n - 1]..b.starts[n - 1] + Rows(b, n - 1)]
  }

  /** If the cache holds the requests' rows, what is gathered are the slices of those rows, whatever the pages. */
  lemma {:induction false} GatheredIsSlices<R>(b: Batch<R>, rows: seq<seq<R>>, n: nat)
    requires InRange(b) && n <= Requests(b) && HoldsRows(b, rows, n)
    ensures Gathered(b, n) == Slices(b, rows, n)
  {
    if n > 0 {
      GatheredIsSlices(b, rows, n - 1);
      var start, w := b.starts[n - 1], WindowOf(b, n - 1);
      forall k | 0 <= k < |w|
        ensures w[k] == rows[n - 1][start..start + |w|][k]
      {
        assert Mapped(|b.cache|, b.page, b.tables[n - 1], start + k);
      }
    }
  }
}
