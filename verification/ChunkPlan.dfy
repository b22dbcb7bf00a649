/**
 Cutting a device allocation into physical chunks, in 64-bit unsigned arithmetic that wraps around.
 */
module ChunkPlan {
  import opened Arith

  const U64 := 0x1_0000_0000_0000_0000
  const MB := 1024 * 1024
  const DEFAULT_CHUNK := 256 * MB

  /** What parsing the environment variable gave: strtoull consumed nothing or failed, or a number of megabytes. */
  datatype EnvSetting = Unset | Unparsed | Megabytes(mb: nat)

  function BaseChunk(env: EnvSetting): (bytes: nat)
    requires env.Megabytes? ==> env.mb < U64
    ensures 0 < bytes < U64
    ensures env.Megabytes? && env.mb > 0 && env.mb * MB < U64 ==> bytes == env.mb * MB
    ensures !(env.Megabytes? && env.mb > 0 && env.mb * MB < U64) ==> bytes == DEFAULT_CHUNK
  {
    match env
    case Unset => DEFAULT_CHUNK
    case Unparsed => DEFAULT_CHUNK
    case Megabytes(mb) =>
      if mb == 0 then DEFAULT_CHUNK
      else if mb > (U64 - 1) / MB then DEFAULT_CHUNK
      else mb * MB
  }

  /** (x + g - 1) / g * g, wrapping. */
  function AlignUp(x: nat, g: nat): (r: nat)
    requires g > 0
    ensures r % g == 0
  {
    var q := (x + g - 1) % U64 / g;
    DivBounds((x + g - 1) % U64, g);
    MulMod(q, g);
    q * g
  }

  lemma MulMod(q: int, g: int)
    requires g > 0
    ensures (q * g) % g == 0
  {
    DivUnique(q * g, g, q);
  }

  /** How many chunks, wrapping; -1 stands for the division by zero. */
  function ChunkTotal(alignedSize: nat, alignedChunk: nat): int {
    if alignedChunk == 0 then -1 else (alignedSize + alignedChunk - 1) % U64 / alignedChunk
  }

  function Sum(s: seq<nat>): nat {
    if |s| == 0 then 0 else Sum(s[..|s| - 1]) + s[|s| - 1]
  }

  /** The chunk loop. It fails (divides by zero) when the aligned chunk size came out as 0. */
  method PlanChunks(size: nat, granularity: nat, base: nat) returns (ok: bool, alignedSize: nat, sizes: array<nat>)
    requires 0 < size && 0 < granularity
    ensures alignedSize == AlignUp(size, granularity)
    ensures ok <==> AlignUp(base, granularity) != 0
    ensures ok ==> fresh(sizes) && sizes.Length == ChunkTotal(alignedSize, AlignUp(base, granularity))
    ensures ok ==> forall i :: 0 <= i < sizes.Length ==>
        sizes[i] == ChunkSize(alignedSize, AlignUp(base, granularity), i)
  {
    alignedSize := AlignUp(size, granularity);
    var alignedChunk := AlignUp(base, granularity);
    if alignedChunk == 0 {
      sizes := new nat[0];
      ok := false;
      return;
    }
    DivBounds((alignedSize + alignedChunk - 1) % U64, alignedChunk);
    var numChunks := (alignedSize + alignedChunk - 1) % U64 / alignedChunk;
    sizes := new nat[numChunks];
    ok := true;
    for i := 0 to numChunks
      invariant forall j :: 0 <= j < i ==> sizes[j] == ChunkSize(alignedSize, alignedChunk, j)
    {
      sizes[i] := Min((alignedSize - i * alignedChunk) % U64, alignedChunk);
    }
  }

  function ChunkSize(alignedSize: nat, alignedChunk: nat, i: nat): nat {
    Min((alignedSize - i * alignedChunk) % U64, alignedChunk)
  }

  function Sizes(alignedSize: nat, alignedChunk: nat, n: nat): (r: seq<nat>)
    ensures |r| == n
  {
    seq(n, i requires 0 <= i => ChunkSize(alignedSize, alignedChunk, i))
  }

  /** The bound under which nothing wraps. */
  ghost predicate NoWrap(size: nat, granularity: nat, base: nat)
    requires granularity > 0
  {
    && size + granularity - 1 < U64
    && base + granularity - 1 < U64
    && AlignUp(size, granularity) + AlignUp(base, granularity) - 1 < U64
  }

  lemma AlignUpExact(x: nat, g: nat)
    requires g > 0 && x > 0 && x + g - 1 < U64
    ensures x <= AlignUp(x, g) < x + g && AlignUp(x, g) >= g
  {
    DivBounds(x + g - 1, g);
    var q := (x + g - 1) / g;
    assert (q + 1) * g == q * g + g;
    if q < 1 {
      MulMonotone(q + 1, 1, g);
    }
    MulMonotone(1, q, g);
  }

  /** A wrapped round-up of a 64-bit value is always 0. */
  lemma AlignUpWrapped(x: nat, g: nat)
    requires g > 0 && 0 < x < U64 && g < U64 && x + g - 1 >= U64
    ensures AlignUp(x, g) == 0
  {
    var r := x + g - 1 - U64;
    WrapOnce(x + g - 1);
    DivUnique(r, g, 0);
  }

  lemma WrapOnce(x: nat)
    requires U64 <= x < 2 * U64
    ensures x % U64 == x - U64
  {
  }

  /** Sum of the first i chunks: the offset at which chunk i is mapped. */
  lemma {:induction false} Offsets(size: nat, chunk: nat, n: nat, i: nat)
    requires 0 < chunk && size < U64 && i <= n && (n - 1) * chunk < size
    ensures i < n ==> Sum(Sizes(size, chunk, n)[..i]) == i * chunk
    ensures i == n && n > 0 ==> Sum(Sizes(size, chunk, n)) == Min(n * chunk, size)
  {
    var s := Sizes(size, chunk, n);
    if i > 0 {
      Offsets(size, chunk, n, i - 1);
      assert s[..i][..i - 1] == s[..i - 1] && s[..n] == s;
      SizeAt(size, chunk, n, i - 1);
    }
  }

  lemma SizeAt(size: nat, chunk: nat, n: nat, i: nat)
    requires 0 < chunk && size < U64 && i < n && (n - 1) * chunk < size
    ensures i * chunk < size && (i + 1) * chunk == i * chunk + chunk
    ensures i + 1 < n ==> (i + 1) * chunk < size
    ensures ChunkSize(size, chunk, i) == Min(size - i * chunk, chunk)
  {
    MulMonotone(0, i, chunk);
    MulMonotone(i, n - 1, chunk);
    if i + 1 < n {
      MulMonotone(i + 1, n - 1, chunk);
    }
  }

  /** The number of chunks is the ceiling of size / chunk. */
  lemma TotalExact(size: nat, chunk: nat)
    requires 0 < chunk && 0 < size && size + chunk - 1 < U64
    ensures var n := ChunkTotal(size, chunk); n > 0 && (n - 1) * chunk < size <= n * chunk
  {
    DivBounds(size + chunk - 1, chunk);
    var n := (size + chunk - 1) / chunk;
    assert (n + 1) * chunk == n * chunk + chunk && (n - 1) * chunk + chunk == n * chunk;
    if n < 1 {
      MulMonotone(n + 1, 1, chunk);
    }
  }

  /** Wrapped or not, the last chunk starts within the range. */
  lemma TotalFits(size: nat, chunk: nat)
    requires 0 < chunk
    ensures var n := ChunkTotal(size, chunk); n >= 0 && (n - 1) * chunk < size
  {
    var r := (size + chunk - 1) % U64;
    DivBounds(r, chunk);
    assert (r / chunk - 1) * chunk == r / chunk * chunk - chunk;
  }

  lemma AlignUpBounded(x: nat, g: nat)
    requires g > 0
    ensures AlignUp(x, g) < U64
  {
    DivBounds((x + g - 1) % U64, g);
  }

  /** Every chunk is a positive multiple of the granularity, at most the aligned chunk size. */
  lemma ChunkShape(size: nat, chunk: nat, g: nat, n: nat, i: nat)
    requires g > 0 && 0 < chunk && size < U64 && i < n && (n - 1) * chunk < size
    requires size % g == 0 && chunk % g == 0
    ensures 0 < ChunkSize(size, chunk, i) <= chunk
    ensures ChunkSize(size, chunk, i) % g == 0
  {
    SizeAt(size, chunk, n, i);
    Remainder(size, chunk, g, i);
  }

  lemma Remainder(size: nat, chunk: nat, g: nat, i: nat)
    requires g > 0 && size % g == 0 && chunk % g == 0
    ensures (size - i * chunk) % g == 0
  {
    var a, b := size / g, chunk / g;
    calc {
      size - i * chunk;
      a * g - i * (b * g);
      a * g - (i * b) * g;
      (a - i * b) * g;
    }
    MulMod(a - i * b, g);
  }

  /** A plan is good when it does not divide by zero and its chunks tile the aligned size exactly. */
  ghost predicate Tiles(sizes: seq<nat>, g: nat, chunk: nat, total: nat)
    requires g > 0
  {
    && Sum(sizes) == total
    && forall i :: 0 <= i < |sizes| ==> 0 < sizes[i] <= chunk && sizes[i] % g == 0
  }

  ghost predicate GoodPlan(size: nat, g: nat, base: nat)
    requires g > 0
  {
    var total, chunk := AlignUp(size, g), AlignUp(base, g);
    && chunk != 0 && ChunkTotal(total, chunk) >= 0
    && Tiles(Sizes(total, chunk, ChunkTotal(total, chunk)), g, chunk, total)
    && size <= total < size + g
  }

  /** For sizes the allocator can be asked for and any granularity and chunk setting: the plan is good exactly when no
      sum wraps. The guard on the environment variable covers neither of the two sums. */
  lemma PlanGoodIff(size: nat, g: nat, base: nat)
    requires 0 < size < U64 / 2 && 0 < g <= U64 / 2 && 0 < base < U64
    ensures GoodPlan(size, g, base) <==> NoWrap(size, g, base)
  {
    AlignUpExact(size, g);
    var total := AlignUp(size, g);
    if base + g - 1 >= U64 {
      AlignUpWrapped(base, g);
    } else {
      AlignUpExact(base, g);
      var chunk := AlignUp(base, g);
      if total + chunk - 1 >= U64 {
        WrapOnce(total + chunk - 1);
        DivUnique(total + chunk - 1 - U64, chunk, 0);
        assert Sizes(total, chunk, 0) == [];
      } else {
        GoodWithoutWrap(size, g, base);
      }
    }
  }

  lemma GoodWithoutWrap(size: nat, g: nat, base: nat)
    requires 0 < size && 0 < g && 0 < base && NoWrap(size, g, base)
    ensures GoodPlan(size, g, base)
  {
    AlignUpExact(size, g);
    AlignUpExact(base, g);
    var total, chunk := AlignUp(size, g), AlignUp(base, g);
    TotalExact(total, chunk);
    var n := ChunkTotal(total, chunk);
    Offsets(total, chunk, n, n);
    forall i | 0 <= i < n
      ensures 0 < Sizes(total, chunk, n)[i] <= chunk && Sizes(total, chunk, n)[i] % g == 0
    {
      ChunkShape(total, chunk, g, n, i);
    }
  }

  /** A setting that passes the overflow guard and still breaks the plan: 2^44 - 1 megabytes, granularity 2 MB. */
  lemma GuardIsNotEnough()
    ensures var base := BaseChunk(Megabytes(0xFFF_FFFF_FFFF));
            base == 0xFFF_FFFF_FFFF * MB && AlignUp(base, 2 * MB) == 0 && !GoodPlan(1, 2 * MB, base)
  {
    AlignUpWrapped(BaseChunk(Megabytes(0xFFF_FFFF_FFFF)), 2 * MB);
  }

  /** Offsets accumulated chunk by chunk leave no gap and no overlap: every byte lies in exactly one chunk. */
  lemma {:induction false} TilesRange(sizes: seq<nat>, x: nat) returns (i: nat)
    requires x < Sum(sizes)
    ensures i < |sizes| && Sum(sizes[..i]) <= x < Sum(sizes[..i]) + sizes[i]
    ensures forall j :: 0 <= j < |sizes| && Sum(sizes[..j]) <= x < Sum(sizes[..j]) + sizes[j] ==> j == i
  {
    var n := |sizes| - 1;
    if x < Sum(sizes[..n]) {
      i := TilesRange(sizes[..n], x);
      assert sizes[..n][..i] == sizes[..i];
    } else {
      i := n;
    }
    forall j | 0 <= j < |sizes| && Sum(sizes[..j]) <= x < Sum(sizes[..j]) + sizes[j]
      ensures j == i
    {
      if j < i {
        SumStep(sizes, j);
        SumGrows(sizes, j + 1, i);
      } else if i < j {
        SumStep(sizes, i);
        SumGrows(sizes, i + 1, j);
      }
    }
  }

  lemma SumStep(sizes: seq<nat>, i: nat)
    requires i < |sizes|
    ensures Sum(sizes[..i + 1]) == Sum(sizes[..i]) + sizes[i]
  {
    assert sizes[..i + 1][..i] == sizes[..i];
  }

  lemma {:induction false} SumGrows(sizes: seq<nat>, i: nat, j: nat)
    requires i <= j <= |sizes|
    ensures Sum(sizes[..i]) <= Sum(sizes[..j])
    decreases j
  {
    if i < j {
      assert sizes[..j][..j - 1] == sizes[..j - 1];
      SumGrows(sizes, i, j - 1);
    }
  }
}
