/** Per-token quantization over the reals, with the scale kept exact and each code stored in a byte. */
module TokenQuant {
  import opened Arith

  function Pow2(n: nat): (p: nat)
    ensures p >= 1
  {
    if n == 0 then 1 else 2 * Pow2(n - 1)
  }

  /** Nearest integer; halves go to the even neighbour. */
  function Round(x: real): int {
    var f := x.Floor;
    var d := x - f as real;
    if d < 0.5 then f else if d > 0.5 then f + 1 else if f % 2 == 0 then f else f + 1
  }

  function Abs(x: real): real {
    if x < 0.0 then -x else x
  }

  function Clamp(k: int, lo: int, hi: int): int {
    if k < lo then lo else if k > hi then hi else k
  }

  function Lowest(row: seq<real>): (m: real)
    requires |row| > 0
    ensures m in row && forall i :: 0 <= i < |row| ==> m <= row[i]
  {
    if |row| == 1 then row[0]
    else
      var m := Lowest(row[1..]);
      assert forall i :: 1 <= i < |row| ==> row[i] == row[1..][i - 1];
      if row[0] < m then row[0] else m
  }

  function Highest(row: seq<real>): (m: real)
    requires |row| > 0
    ensures m in row && forall i :: 0 <= i < |row| ==> row[i] <= m
  {
    if |row| == 1 then row[0]
    else
      var m := Highest(row[1..]);
      assert forall i :: 1 <= i < |row| ==> row[i] == row[1..][i - 1];
      if m < row[0] then row[0] else m
  }

  const MIN_SCALE := 0.00001

  function QMin(sym: bool, bits: nat): int
    requires bits > 0
  {
    if sym then 0 - Pow2(bits - 1) else 0
  }

  function QMax(sym: bool, bits: nat): int
    requires bits > 0
  {
    if sym then Pow2(bits - 1) - 1 else Pow2(bits) - 1
  }

  /** One bit is enough without sign; a signed range needs two. */
  predicate Enough(sym: bool, bits: nat) {
    bits >= if sym then 2 else 1
  }

  lemma QMaxPositive(sym: bool, bits: nat)
    requires Enough(sym, bits)
    ensures QMax(sym, bits) >= 1 && QMin(sym, bits) <= 0 && (sym ==> QMin(sym, bits) < -QMax(sym, bits))
  {
    if sym {
      assert Pow2(bits - 1) == 2 * Pow2(bits - 2);
    } else {
      assert Pow2(bits) == 2 * Pow2(bits - 1);
    }
  }

  function Scale(row: seq<real>, sym: bool, bits: nat): (s: real)
    requires |row| > 0 && Enough(sym, bits)
    ensures s >= MIN_SCALE
  {
    QMaxPositive(sym, bits);
    var q := QMax(sym, bits) as real;
    if sym then Max(Max(Abs(Lowest(row)), Abs(Highest(row))) / q, MIN_SCALE)
    else Max((Highest(row) - Lowest(row)) / q, MIN_SCALE)
  }

  // --- The zero point as a 32-bit integer ----------------------------------------------------------------------------

  const INT32_MIN := -0x8000_0000

  predicate IsInt32(k: int) {
    INT32_MIN <= k < 0x8000_0000
  }

  /** A conversion to 32 bits keeps what fits; what it makes of other numbers is its own affair. */
  ghost predicate Int32Cast(cast: int -> int) {
    forall k :: IsInt32(cast(k)) && (IsInt32(k) ==> cast(k) == k)
  }

  /** -1 * k on 32-bit integers wraps around for the least one. */
  function Negated(k: int): int {
    if k == INT32_MIN then k else -k
  }

  function ZeroPoint(row: seq<real>, sym: bool, bits: nat, cast: int -> int): int
    requires |row| > 0 && Enough(sym, bits)
  {
    if sym then 0 else Negated(cast(Round(Lowest(row) / Scale(row, sym, bits))))
  }

  /** One element with the row's scale and zero point. */
  function Code(x: real, s: real, z: int, lo: int, hi: int): (q: int)
    requires s > 0.0 && lo <= hi
    ensures lo <= q <= hi
  {
    Clamp(Round(x / s + z as real), lo, hi)
  }

  function Restored(s: real, q: int, z: int): real {
    s * (q - z) as real
  }

  function Quantize(row: seq<real>, sym: bool, bits: nat, cast: int -> int, i: nat): (q: int)
    requires i < |row| && Enough(sym, bits)
    ensures QMin(sym, bits) <= q <= QMax(sym, bits)
  {
    QMaxPositive(sym, bits);
    Code(row[i], Scale(row, sym, bits), ZeroPoint(row, sym, bits, cast), QMin(sym, bits), QMax(sym, bits))
  }

  predicate IsByte(sym: bool, k: int) {
    if sym then -128 <= k <= 127 else 0 <= k <= 255
  }

  /** A conversion to a byte keeps what fits; what it makes of other numbers is its own affair. */
  ghost predicate ByteCast(sym: bool, store: int -> int) {
    forall k :: IsByte(sym, store(k)) && (IsByte(sym, k) ==> store(k) == k)
  }

  /** What a reader of the stored byte gets back. */
  function Dequantize(row: seq<real>, sym: bool, bits: nat, cast: int -> int, store: int -> int, i: nat): real
    requires i < |row| && Enough(sym, bits)
  {
    Restored(Scale(row, sym, bits), store(Quantize(row, sym, bits, cast, i)), ZeroPoint(row, sym, bits, cast))
  }

  predicate WithinHalf(x: real, y: real, s: real) {
    Abs(x - y) <= s / 2.0
  }

  // --- What the parts mean -------------------------------------------------------------------------------------------

  /** Less than half a step away, or exactly half a step and even. */
  predicate Nearest(x: real, k: int) {
    Abs(x - k as real) < 0.5 || (Abs(x - k as real) == 0.5 && k % 2 == 0)
  }

  /** There is exactly one such integer, and it is what rounding gives. */
  lemma RoundIff(x: real, k: int)
    ensures k == Round(x) <==> Nearest(x, k)
  {
    var f := x.Floor;
    if k < f {
      assert k as real <= f as real - 1.0;
    } else if k > f + 1 {
      assert k as real >= f as real + 2.0;
    }
  }

  function Spread(row: seq<real>, sym: bool): real
    requires |row| > 0
  {
    if sym then Max(Abs(Lowest(row)), Abs(Highest(row))) else Highest(row) - Lowest(row)
  }

  /** The range covers the row's spread, and no more than it unless the minimum scale is reached. */
  lemma ScaleExact(row: seq<real>, sym: bool, bits: nat)
    requires |row| > 0 && Enough(sym, bits)
    ensures var s, q := Scale(row, sym, bits), QMax(sym, bits) as real;
            s * q >= Spread(row, sym) && (s == MIN_SCALE || s * q == Spread(row, sym))
  {
    QMaxPositive(sym, bits);
    Quotient(Spread(row, sym), QMax(sym, bits) as real, Scale(row, sym, bits));
  }

  lemma Quotient(a: real, q: real, s: real)
    requires q >= 1.0 && (s == a / q || s >= a / q)
    ensures s * q >= a && (s == a / q ==> s * q == a)
  {
    assert (a / q) * q == a;
    var d := s - a / q;
    assert s * q == (a / q) * q + d * q;
    assert d * q >= 0.0;
  }

  lemma {:induction false} Pow2Grows(m: nat, n: nat)
    requires m <= n
    ensures Pow2(m) <= Pow2(n)
    decreases n - m
  {
    if m < n {
      Pow2Grows(m, n - 1);
    }
  }

  /** Up to eight bits the quantized value fits the byte it is stored in. */
  lemma FitsByte(row: seq<real>, sym: bool, bits: nat, cast: int -> int, i: nat)
    requires i < |row| && Enough(sym, bits) && bits <= 8
    ensures IsByte(sym, Quantize(row, sym, bits, cast, i))
  {
    Pow2Grows(bits - 1, 7);
    Pow2Grows(bits, 8);
    assert Pow2(3) == 8 && Pow2(7) == 16 * Pow2(3) && Pow2(8) == 2 * Pow2(7);
  }

  // --- The error bound -----------------------------------------------------------------------------------------------

  lemma RoundNear(x: real)
    ensures -0.5 <= x - Round(x) as real <= 0.5
  {
  }

  /** Rounding and clamping a value at most half a step outside the range moves it by at most half a step. */
  lemma ClampNear(v: real, lo: int, hi: int)
    requires lo <= hi && lo as real - 0.5 <= v <= hi as real + 0.5
    ensures -0.5 <= v - Clamp(Round(v), lo, hi) as real <= 0.5
  {
    RoundNear(v);
    var k := Round(v);
    if k < lo {
      assert k as real <= lo as real - 1.0;
    } else if k > hi {
      assert k as real >= hi as real + 1.0;
    }
  }

  lemma DivideOrder(a: real, b: real, s: real)
    requires s > 0.0 && a <= b
    ensures a / s <= b / s
  {
    var d := (b - a) / s;
    assert d >= 0.0;
    assert b / s == a / s + d;
  }

  /** Quotients bounded by n if the divisor is at least the n-th part. */
  lemma DivideBound(a: real, n: real, s: real)
    requires n > 0.0 && s > 0.0 && a / n <= s
    ensures a / s <= n
  {
    assert a == (a / n) * n;
    assert a <= s * n;
    DivideOrder(a, s * n, s);
    assert (s * n) / s == n;
  }

  /** The zero point before it is stored. */
  function TrueZero(row: seq<real>, sym: bool, bits: nat): int
    requires |row| > 0 && Enough(sym, bits)
  {
    if sym then 0 else -Round(Lowest(row) / Scale(row, sym, bits))
  }

  lemma ScaleCovers(row: seq<real>, sym: bool, bits: nat)
    requires |row| > 0 && Enough(sym, bits)
    ensures QMax(sym, bits) >= 1 && Spread(row, sym) / QMax(sym, bits) as real <= Scale(row, sym, bits)
  {
    QMaxPositive(sym, bits);
  }

  lemma InSymRange(row: seq<real>, bits: nat, i: nat)
    requires i < |row| && Enough(true, bits)
    ensures -(QMax(true, bits) as real) <= row[i] / Scale(row, true, bits) <= QMax(true, bits) as real
  {
    ScaleCovers(row, true, bits);
    SymRange(row[i], Spread(row, true), QMax(true, bits) as real, Scale(row, true, bits));
  }

  lemma InAsymRange(row: seq<real>, bits: nat, i: nat)
    requires i < |row| && Enough(false, bits)
    ensures -0.5 <= row[i] / Scale(row, false, bits) + TrueZero(row, false, bits) as real
         <= QMax(false, bits) as real + 0.5
  {
    ScaleCovers(row, false, bits);
    AsymRange(row[i], Lowest(row), Highest(row), QMax(false, bits) as real, Scale(row, false, bits));
  }

  /** With it every value lies within the range widened by half a step. */
  lemma InRange(row: seq<real>, sym: bool, bits: nat, i: nat)
    requires i < |row| && Enough(sym, bits)
    ensures var v := row[i] / Scale(row, sym, bits) + TrueZero(row, sym, bits) as real;
            QMin(sym, bits) as real - 0.5 <= v <= QMax(sym, bits) as real + 0.5
  {
    QMaxPositive(sym, bits);
    if sym {
      InSymRange(row, bits, i);
    } else {
      InAsymRange(row, bits, i);
    }
  }

  lemma SymRange(x: real, m: real, q: real, s: real)
    requires -m <= x <= m && q > 0.0 && s > 0.0 && m / q <= s
    ensures -q <= x / s <= q
  {
    DivideBound(m, q, s);
    DivideOrder(-m, x, s);
    DivideOrder(x, m, s);
    Negate(m, s);
  }

  lemma AsymRange(x: real, lo: real, hi: real, q: real, s: real)
    requires lo <= x <= hi && q > 0.0 && s > 0.0 && (hi - lo) / q <= s
    ensures -0.5 <= x / s + (-Round(lo / s)) as real <= q + 0.5
  {
    DivideBound(hi - lo, q, s);
    DivideOrder(lo, x, s);
    DivideOrder(x, hi, s);
    Subtract(hi, lo, s);
    RoundNear(lo / s);
  }

  lemma Negate(a: real, s: real)
    requires s > 0.0
    ensures (-a) / s == -(a / s)
  {
  }

  lemma Subtract(a: real, b: real, s: real)
    requires s > 0.0
    ensures (a - b) / s == a / s - b / s
  {
  }

  /** A value comes back within half a step exactly if its multiple of the scale is within half of one. */
  lemma ScaleBack(x: real, s: real, k: real)
    requires s > 0.0
    ensures Abs(x - s * k) <= s / 2.0 <==> -0.5 <= x / s - k <= 0.5
  {
    var d := x / s - k;
    assert x == s * (x / s);
    assert x - s * k == s * d;
    if d < -0.5 {
      assert s * (-0.5 - d) > 0.0;
    } else if d > 0.5 {
      assert s * (d - 0.5) > 0.0;
    } else {
      assert s * (0.5 - d) >= 0.0 && s * (d + 0.5) >= 0.0;
    }
  }

  /** Clamping spoils exactly the values more than half a step outside the range. */
  lemma CodeIff(x: real, s: real, z: int, lo: int, hi: int)
    requires s > 0.0 && lo <= hi
    ensures WithinHalf(x, Restored(s, Code(x, s, z, lo, hi), z), s) <==>
        lo as real - 0.5 <= x / s + z as real <= hi as real + 0.5
  {
    var v, q := x / s + z as real, Code(x, s, z, lo, hi);
    assert (q - z) as real == q as real - z as real;
    ScaleBack(x, s, (q - z) as real);
    if lo as real - 0.5 <= v <= hi as real + 0.5 {
      ClampNear(v, lo, hi);
    } else {
      ClampFar(v, lo, hi);
    }
  }

  lemma ClampFar(v: real, lo: int, hi: int)
    requires lo <= hi && !(lo as real - 0.5 <= v <= hi as real + 0.5)
    ensures !(-0.5 <= v - Clamp(Round(v), lo, hi) as real <= 0.5)
  {
    var q := Clamp(Round(v), lo, hi);
    assert lo as real <= q as real <= hi as real;
  }

  // --- When the zero point fits --------------------------------------------------------------------------------------

  /** The lowest value is less than 2^31 - 1/2 steps away from zero. */
  predicate NearZero(row: seq<real>, sym: bool, bits: nat)
    requires |row| > 0 && Enough(sym, bits)
  {
    sym || -2147483647.5 < Lowest(row) / Scale(row, sym, bits) < 2147483647.5
  }

  /** Exactly then the rounded quotient is a 32-bit integer whose negation is one. */
  lemma FitsIff(x: real)
    ensures -2147483647.5 < x < 2147483647.5 <==> IsInt32(Round(x)) && Round(x) != INT32_MIN
  {
    var k := Round(x);
    RoundIff(x, k);
    if k >= 0x8000_0000 {
      assert k as real >= 2147483648.0;
    } else if k <= INT32_MIN {
      assert k as real <= -2147483648.0;
    } else {
      assert -2147483647.0 <= k as real <= 2147483647.0;
    }
  }

  ghost predicate AllWithin(row: seq<real>, sym: bool, bits: nat, cast: int -> int, store: int -> int)
    requires Enough(sym, bits)
  {
    forall i :: 0 <= i < |row| ==> WithinHalf(row[i], Dequantize(row, sym, bits, cast, store, i), Scale(row, sym, bits))
  }

  // --- When the codes fit their bytes --------------------------------------------------------------------------------

  /** The code of x with the row's scale and the zero point before it is stored. */
  function TrueCode(row: seq<real>, sym: bool, bits: nat, x: real): int
    requires |row| > 0 && Enough(sym, bits)
  {
    QMaxPositive(sym, bits);
    Code(x, Scale(row, sym, bits), TrueZero(row, sym, bits), QMin(sym, bits), QMax(sym, bits))
  }

  /** The codes of the row's extreme values fit the byte. */
  predicate CodesFit(row: seq<real>, sym: bool, bits: nat)
    requires |row| > 0 && Enough(sym, bits)
  {
    IsByte(sym, TrueCode(row, sym, bits, Lowest(row))) && IsByte(sym, TrueCode(row, sym, bits, Highest(row)))
  }

  lemma RoundOrder(x: real, y: real)
    requires x <= y
    ensures Round(x) <= Round(y)
  {
    RoundIff(x, Round(x));
    RoundIff(y, Round(y));
  }

  lemma CodeOrder(x: real, y: real, s: real, z: int, lo: int, hi: int)
    requires s > 0.0 && lo <= hi && x <= y
    ensures Code(x, s, z, lo, hi) <= Code(y, s, z, lo, hi)
  {
    DivideOrder(x, y, s);
    RoundOrder(x / s + z as real, y / s + z as real);
  }

  /** Then all codes do. */
  lemma AllFit(row: seq<real>, sym: bool, bits: nat, i: nat)
    requires i < |row| && Enough(sym, bits) && CodesFit(row, sym, bits)
    ensures IsByte(sym, TrueCode(row, sym, bits, row[i]))
  {
    QMaxPositive(sym, bits);
    var s, z := Scale(row, sym, bits), TrueZero(row, sym, bits);
    CodeOrder(Lowest(row), row[i], s, z, QMin(sym, bits), QMax(sym, bits));
    CodeOrder(row[i], Highest(row), s, z, QMin(sym, bits), QMax(sym, bits));
  }

  /** A zero point that fits is stored as it is. */
  lemma ZeroKept(row: seq<real>, sym: bool, bits: nat, cast: int -> int)
    requires |row| > 0 && Enough(sym, bits) && NearZero(row, sym, bits) && Int32Cast(cast)
    ensures ZeroPoint(row, sym, bits, cast) == TrueZero(row, sym, bits)
  {
    FitsIff(Lowest(row) / Scale(row, sym, bits));
  }

  /** Every element of such a row comes back within half a scale step, in both modes, clamping and minimum scale
      included, whatever the conversions do elsewhere. */
  lemma HalfStep(row: seq<real>, sym: bool, bits: nat, cast: int -> int, store: int -> int, i: nat)
    requires i < |row| && Enough(sym, bits) && NearZero(row, sym, bits) && CodesFit(row, sym, bits)
    requires Int32Cast(cast) && ByteCast(sym, store)
    ensures WithinHalf(row[i], Dequantize(row, sym, bits, cast, store, i), Scale(row, sym, bits))
  {
    QMaxPositive(sym, bits);
    InRange(row, sym, bits, i);
    ZeroKept(row, sym, bits, cast);
    AllFit(row, sym, bits, i);
    CodeIff(row[i], Scale(row, sym, bits), TrueZero(row, sym, bits), QMin(sym, bits), QMax(sym, bits));
  }

  // --- Otherwise some conversion loses an element --------------------------------------------------------------------

  /** Conversions that land far away on the other side. */
  function Far(above: bool): int -> int {
    (k: int) => if IsInt32(k) then k else if above then -0x7fff_ffff else 0x7fff_ffff
  }

  function FarByte(sym: bool): int -> int {
    (k: int) => if IsByte(sym, k) then k else if k < 0 then (if sym then 127 else 255) else (if sym then -128 else 0)
  }

  /** A value is lost if it is not within half a step of the code stored for it. */
  lemma LostIf(x: real, s: real, q: int, z: int)
    requires s > 0.0 && !(-0.5 <= x / s + z as real - q as real <= 0.5)
    ensures !WithinHalf(x, Restored(s, q, z), s)
  {
    assert (q - z) as real == q as real - z as real;
    ScaleBack(x, s, (q - z) as real);
  }

  lemma SameSign(x: real, s: real)
    requires s > 0.0
    ensures x > 0.0 <==> x / s > 0.0
  {
    assert x == s * (x / s);
  }

  /** If the lowest value is too far from zero, some conversion of the zero point loses it. */
  lemma LowestLost(row: seq<real>, bits: nat, store: int -> int, i: nat)
    requires i < |row| && row[i] == Lowest(row) && Enough(false, bits) && !NearZero(row, false, bits)
        && ByteCast(false, store)
    ensures var cast := Far(Lowest(row) > 0.0);
            && Int32Cast(cast)
            && !WithinHalf(row[i], Dequantize(row, false, bits, cast, store, i), Scale(row, false, bits))
  {
    var s, cast := Scale(row, false, bits), Far(Lowest(row) > 0.0);
    SameSign(Lowest(row), s);
    ZeroFar(row, bits);
    var q := store(Quantize(row, false, bits, cast, i));
    assert IsByte(false, q);
    LostFar(row[i], s, q, ZeroPoint(row, false, bits, cast));
  }

  lemma LostFar(x: real, s: real, q: int, z: int)
    requires s > 0.0 && IsByte(false, q)
    requires (x / s > 2147483647.0 && z as real >= 2147483647.0)
        || (x / s < -2147483647.0 && z as real <= -2147483647.0)
    ensures !WithinHalf(x, Restored(s, q, z), s)
  {
    assert 0.0 <= q as real <= 255.0;
    LostIf(x, s, q, z);
  }

  lemma ZeroFar(row: seq<real>, bits: nat)
    requires |row| > 0 && Enough(false, bits) && !NearZero(row, false, bits)
    requires Lowest(row) > 0.0 <==> Lowest(row) / Scale(row, false, bits) > 0.0
    ensures var z := ZeroPoint(row, false, bits, Far(Lowest(row) > 0.0)) as real;
            if Lowest(row) > 0.0 then z >= 2147483647.0 else z <= -2147483647.0
  {
    FitsIff(Lowest(row) / Scale(row, false, bits));
    RoundNear(Lowest(row) / Scale(row, false, bits));
  }

  /** If an element's code does not fit, some conversion to bytes loses it. */
  lemma CodeLost(row: seq<real>, sym: bool, bits: nat, cast: int -> int, i: nat)
    requires i < |row| && Enough(sym, bits) && NearZero(row, sym, bits) && Int32Cast(cast)
    requires !IsByte(sym, TrueCode(row, sym, bits, row[i]))
    ensures ByteCast(sym, FarByte(sym))
    ensures !WithinHalf(row[i], Dequantize(row, sym, bits, cast, FarByte(sym), i), Scale(row, sym, bits))
  {
    QMaxPositive(sym, bits);
    ZeroKept(row, sym, bits, cast);
    InRange(row, sym, bits, i);
    var v := row[i] / Scale(row, sym, bits) + TrueZero(row, sym, bits) as real;
    ClampNear(v, QMin(sym, bits), QMax(sym, bits));
    var k := TrueCode(row, sym, bits, row[i]);
    var q := FarByte(sym)(k);
    assert q as real <= k as real - 256.0 || q as real >= k as real + 256.0;
    LostIf(row[i], Scale(row, sym, bits), q, TrueZero(row, sym, bits));
  }

  lemma ExtremesAt(row: seq<real>) returns (lo: nat, hi: nat)
    requires |row| > 0
    ensures lo < |row| && hi < |row| && row[lo] == Lowest(row) && row[hi] == Highest(row)
  {
    lo :| 0 <= lo < |row| && row[lo] == Lowest(row);
    hi :| 0 <= hi < |row| && row[hi] == Highest(row);
  }

  ghost predicate AlwaysWithin(row: seq<real>, sym: bool, bits: nat)
    requires Enough(sym, bits)
  {
    forall cast: int -> int, store: int -> int ::
      Int32Cast(cast) && ByteCast(sym, store) ==> AllWithin(row, sym, bits, cast, store)
  }

  lemma NotAlways(row: seq<real>, sym: bool, bits: nat, cast: int -> int, store: int -> int, i: nat)
    requires i < |row| && Enough(sym, bits) && Int32Cast(cast) && ByteCast(sym, store)
    requires !WithinHalf(row[i], Dequantize(row, sym, bits, cast, store, i), Scale(row, sym, bits))
    ensures !AlwaysWithin(row, sym, bits)
  {
    assert !AllWithin(row, sym, bits, cast, store);
  }

  /** All elements come back within half a step, whatever the two conversions make of numbers that do not fit, exactly
      if the lowest value is less than 2^31 - 1/2 steps away from zero and the codes of the extreme values fit a
      byte. */
  lemma HalfStepIff(row: seq<real>, sym: bool, bits: nat)
    requires |row| > 0 && Enough(sym, bits)
    ensures AlwaysWithin(row, sym, bits) <==> NearZero(row, sym, bits) && CodesFit(row, sym, bits)
  {
    var lo, hi := ExtremesAt(row);
    if !NearZero(row, sym, bits) {
      LowestLost(row, bits, FarByte(sym), lo);
      NotAlways(row, sym, bits, Far(Lowest(row) > 0.0), FarByte(sym), lo);
    } else if !CodesFit(row, sym, bits) {
      var i := if IsByte(sym, TrueCode(row, sym, bits, Lowest(row))) then hi else lo;
      CodeLost(row, sym, bits, Far(true), i);
      NotAlways(row, sym, bits, Far(true), FarByte(sym), i);
    } else {
      forall cast: int -> int, store: int -> int, i | Int32Cast(cast) && ByteCast(sym, store) && 0 <= i < |row|
        ensures WithinHalf(row[i], Dequantize(row, sym, bits, cast, store, i), Scale(row, sym, bits))
      {
        HalfStep(row, sym, bits, cast, store, i);
      }
    }
  }

  /** Up to eight bits only the zero point matters. */
  lemma EightBitsIff(row: seq<real>, sym: bool, bits: nat)
    requires |row| > 0 && Enough(sym, bits) && bits <= 8
    ensures AlwaysWithin(row, sym, bits) <==> NearZero(row, sym, bits)
  {
    HalfStepIff(row, sym, bits);
    if NearZero(row, sym, bits) {
      var lo, hi := ExtremesAt(row);
      ZeroKept(row, sym, bits, Far(true));
      FitsByte(row, sym, bits, Far(true), lo);
      FitsByte(row, sym, bits, Far(true), hi);
    }
  }

  /** With sixteen bits a row that spans the whole range is one whose codes do not fit. */
  lemma SixteenBits()
    ensures NearZero([0.0, 65535.0], false, 16) && !CodesFit([0.0, 65535.0], false, 16)
  {
    var row := [0.0, 65535.0];
    assert Pow2(4) == 16 && Pow2(8) == 16 * Pow2(4) && Pow2(12) == 16 * Pow2(8) && Pow2(16) == 16 * Pow2(12);
    assert QMax(false, 16) == 65535;
    assert row[1..] == [65535.0];
    assert Lowest(row) == 0.0 && Highest(row) == 65535.0;
    assert Scale(row, false, 16) == 1.0;
    assert TrueCode(row, false, 16, 65535.0) == 65535;
  }

  /** A row of equal values far from zero is such a row. */
  lemma WideZeroPoint(bits: nat)
    requires bits >= 1
    ensures !NearZero([30000.0], false, bits)
  {
    var row := [30000.0];
    QMaxPositive(false, bits);
    assert (Highest(row) - Lowest(row)) / QMax(false, bits) as real == 0.0;
    assert Scale(row, false, bits) == MIN_SCALE;
    assert 30000.0 / MIN_SCALE == 3000000000.0;
  }
}
