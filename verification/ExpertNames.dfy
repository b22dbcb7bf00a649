/** Names of routed-expert tensors and of their per-rank slices. */
module ExpertNames {
  import opened Wrappers

  /** What the name pattern captures. `prefix` is the name without its last component. */
  datatype Expert = Expert(prefix: string, layer: string, expert: string, projection: string, field: string)

  // --- Dotted names --------------------------------------------------------------------------------------------------

  function Split(s: string): (r: seq<string>)
    ensures |r| > 0 && forall i :: 0 <= i < |r| ==> '.' !in r[i]
  {
    if s == "" then [""]
    else
      var rest := Split(s[1..]);
      if s[0] == '.' then [""] + rest else [[s[0]] + rest[0]] + rest[1..]
  }

  function Join(parts: seq<string>): string
    requires |parts| > 0
  {
    if |parts| == 1 then parts[0] else parts[0] + "." + Join(parts[1..])
  }

  lemma {:induction false} JoinSplit(s: string)
    ensures Join(Split(s)) == s
  {
    if s != "" {
      JoinSplit(s[1..]);
      var rest := Split(s[1..]);
      if s[0] == '.' {
        assert Split(s)[1..] == rest;
      } else if |rest| > 1 {
        assert Split(s)[1..] == rest[1..];
      }
    }
  }

  lemma {:induction false} SplitDotless(s: string)
    requires '.' !in s
    ensures Split(s) == [s]
  {
    if s != "" {
      SplitDotless(s[1..]);
      assert s == [s[0]] + s[1..];
    }
  }

  lemma SplitCons(c: char, s: string)
    ensures var rest := Split(s); Split([c] + s) == if c == '.' then [""] + rest else [[c] + rest[0]] + rest[1..]
  {
    assert ([c] + s)[1..] == s;
  }

  lemma {:induction false} SplitConcat(a: string, b: string)
    ensures Split(a + "." + b) == Split(a) + Split(b)
  {
    if a == "" {
      SplitCons('.', b);
      assert a + "." + b == ['.'] + b;
    } else {
      SplitConcat(a[1..], b);
      SplitCons(a[0], a[1..] + "." + b);
      assert a + "." + b == [a[0]] + (a[1..] + "." + b);
      HeadConcat(Split(a[1..]), Split(b), a[0]);
    }
  }

  lemma HeadConcat(p: seq<string>, q: seq<string>, c: char)
    requires |p| > 0
    ensures [[c] + (p + q)[0]] + (p + q)[1..] == [[c] + p[0]] + p[1..] + q
    ensures [""] + (p + q) == [""] + p + q
  {
  }

  lemma SplitInjective(a: string, b: string)
    requires Split(a) == Split(b)
    ensures a == b
  {
    JoinSplit(a);
    JoinSplit(b);
  }

  // --- Decimal numbers -----------------------------------------------------------------------------------------------

  predicate Digits(s: string) {
    |s| > 0 && forall i :: 0 <= i < |s| ==> '0' <= s[i] <= '9'
  }

  function Decimal(n: nat): (s: string)
    ensures Digits(s)
  {
    var digit := ('0' as int + n % 10) as char;
    if n < 10 then [digit] else Decimal(n / 10) + [digit]
  }

  function Value(s: string): nat
    requires forall i :: 0 <= i < |s| ==> '0' <= s[i] <= '9'
  {
    if s == "" then 0 else Value(s[..|s| - 1]) * 10 + (s[|s| - 1] as int - '0' as int)
  }

  lemma {:induction false} DecimalValue(n: nat)
    ensures Value(Decimal(n)) == n
  {
    if n >= 10 {
      DecimalValue(n / 10);
      assert Decimal(n)[..|Decimal(n)| - 1] == Decimal(n / 10);
    }
  }

  // --- The name pattern ----------------------------------------------------------------------------------------------

  const PROJECTIONS := {"gate_proj", "up_proj", "down_proj"}
  const FIELDS := {"trellis", "suh", "svh", "mcg", "mul1"}

  /** Number of optional leading components. */
  function Lead(parts: seq<string>): nat {
    if |parts| >= 2 && parts[0] == "model" && parts[1] == "language_model" then 2
    else if |parts| >= 1 && (parts[0] == "model" || parts[0] == "language_model") then 1
    else 0
  }

  predicate Matches(parts: seq<string>) {
    var l := Lead(parts);
    && |parts| == l + 7 && parts[l] == "layers" && Digits(parts[l + 1]) && parts[l + 2] == "mlp"
       && parts[l + 3] == "experts"
    && Digits(parts[l + 4]) && parts[l + 5] in PROJECTIONS && parts[l + 6] in FIELDS
  }

  function Parse(name: string): (r: Option<Expert>)
    ensures r.Some? ==> Digits(r.value.layer) && Digits(r.value.expert)
    ensures r.Some? ==> r.value.projection in PROJECTIONS && r.value.field in FIELDS
  {
    var parts := Split(name);
    if !Matches(parts) then None
    else
      var l := Lead(parts);
      Some(Expert(Join(parts[..l + 6]), parts[l + 1], parts[l + 4], parts[l + 5], parts[l + 6]))
  }

  function RankedName(prefix: string, rank: nat, field: string): string {
    prefix + ".rank" + Decimal(rank) + "." + field
  }

  // --- Facts ---------------------------------------------------------------------------------------------------------

  lemma {:induction false} SplitJoin(parts: seq<string>)
    requires |parts| > 0 && forall i :: 0 <= i < |parts| ==> '.' !in parts[i]
    ensures Split(Join(parts)) == parts
  {
    SplitDotless(parts[0]);
    if |parts| > 1 {
      SplitJoin(parts[1..]);
      SplitConcat(parts[0], Join(parts[1..]));
    }
  }

  /** The pattern's groups put together again are the name. */
  lemma ParsedName(name: string)
    requires Parse(name).Some?
    ensures var e := Parse(name).value; name == e.prefix + "." + e.field && Split(name) == Split(e.prefix) + [e.field]
  {
    var parts, e := Split(name), Parse(name).value;
    var front := parts[..Lead(parts) + 6];
    SplitJoin(front);
    assert parts == front + [e.field];
    SplitDotless(e.field);
    SplitConcat(e.prefix, e.field);
    SplitInjective(name, e.prefix + "." + e.field);
  }

  lemma DotFree(rank: nat)
    ensures '.' !in "rank" + Decimal(rank)
  {
  }

  lemma RankedParts(prefix: string, rank: nat, field: string)
    requires '.' !in field
    ensures Split(RankedName(prefix, rank, field)) == Split(prefix) + ["rank" + Decimal(rank), field]
  {
    var tag := "rank" + Decimal(rank);
    DotFree(rank);
    SplitDotless(tag);
    SplitDotless(field);
    SplitConcat(prefix, tag);
    SplitConcat(prefix + "." + tag, field);
    RankedIs(prefix, rank, field);
  }

  lemma RankedIs(prefix: string, rank: nat, field: string)
    ensures RankedName(prefix, rank, field) == prefix + "." + ("rank" + Decimal(rank)) + "." + field
  {
    assert prefix + ".rank" + Decimal(rank) == prefix + "." + ("rank" + Decimal(rank));
  }

  /** Distinct (expert tensor, rank) pairs have distinct output names. */
  lemma RankedInjective(a: string, r: nat, b: string, q: nat)
    requires Parse(a).Some? && Parse(b).Some?
    requires RankedName(Parse(a).value.prefix, r, Parse(a).value.field)
        == RankedName(Parse(b).value.prefix, q, Parse(b).value.field)
    ensures a == b && r == q
  {
    var e, f := Parse(a).value, Parse(b).value;
    ParsedName(a);
    ParsedName(b);
    RankedParts(e.prefix, r, e.field);
    RankedParts(f.prefix, q, f.field);
    var p, o := Split(e.prefix), Split(f.prefix);
    var ep, fp := p + ["rank" + Decimal(r), e.field], o + ["rank" + Decimal(q), f.field];
    assert ep == fp;
    assert p == ep[..|p|] && o == fp[..|p|];
    assert ep[|p|] == fp[|p|] && ep[|p| + 1] == fp[|p| + 1];
    SplitInjective(e.prefix, f.prefix);
    assert Decimal(r) == ("rank" + Decimal(r))[4..] && Decimal(q) == ("rank" + Decimal(q))[4..];
    DecimalValue(r);
    DecimalValue(q);
  }

  /** A slice's name is never taken for an expert tensor's. */
  lemma RankedIsOrdinary(a: string, r: nat)
    requires Parse(a).Some?
    ensures Parse(RankedName(Parse(a).value.prefix, r, Parse(a).value.field)) == None
  {
    var e := Parse(a).value;
    ParsedName(a);
    RankedParts(e.prefix, r, e.field);
    var parts := Split(a);
    var ranked := Split(e.prefix) + ["rank" + Decimal(r), e.field];
    assert |ranked| == |parts| + 1;
    assert forall i :: 0 <= i < |parts| - 1 ==> ranked[i] == parts[i];
    assert Lead(ranked) == Lead(parts);
  }
}
