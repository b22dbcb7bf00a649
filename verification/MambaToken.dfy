/**
 The arithmetic of one token over the reals. The kernel works on BLOCK_DSTATE lanes, of which only the first dstate
 exist in memory: masked loads fill the others with zero and masked stores drop them.
 */
module MambaToken {
  import opened Arith
  import opened Recurrence
  import opened PrefixCache

  datatype Maybe = Absent | Present(value: real)

  /** One dim's parameters. `exp`, `log`, the gating function and the casts are arbitrary. */
  datatype Params = Params(A: seq<real>, D: Maybe, deltaBias: Maybe, softplus: bool,
                           exp: real -> real, log: real -> real, gate: (real, real) -> real,
                           castOut: real -> real, castState: real -> real)

  /** The inputs of a token: u, and the B and C vectors of its group. */
  datatype Tok = Tok(u: real, B: seq<real>, C: seq<real>)

  /** A masked load: lanes that do not exist read as zero. */
  function Lane(v: seq<real>, dstate: nat, i: nat): real {
    if i < dstate && i < |v| then v[i] else 0.0
  }

  function Softplus(p: Params, x: real): real {
    if x <= 20.0 then p.log(p.exp(x) + 1.0) else x
  }

  function DeltaVal(p: Params, delta: real): real {
    var biased := if p.deltaBias.Present? then delta + p.deltaBias.value else delta;
    if p.softplus then Softplus(p, biased) else biased
  }

  /** state = exp(delta * A) * state + delta * u * B, lane by lane. */
  function StepLanes(p: Params, dstate: nat, width: nat, state: seq<real>, tok: Tok, delta: real): (r: seq<real>)
    ensures |r| == width
  {
    var dv := DeltaVal(p, delta);
    seq(width, i requires 0 <= i < width =>
      p.exp(dv * Lane(p.A, dstate, i)) * Lane(state, width, i) + dv * tok.u * Lane(tok.B, dstate, i))
  }

  function Dot(state: seq<real>, C: seq<real>, dstate: nat, width: nat): real {
    if width == 0 then 0.0
    else Dot(state, C, dstate, width - 1) + Lane(state, width, width - 1) * Lane(C, dstate, width - 1)
  }

  function OutVal(p: Params, dstate: nat, width: nat, state: seq<real>, tok: Tok): real {
    var o := Dot(state, tok.C, dstate, width);
    if p.D.Present? then o + p.D.value * tok.u else o
  }

  /** The kernel with `width` lanes for a state of `dstate` elements. */
  function KernelOf(p: Params, dstate: nat, width: nat): Kernel<seq<real>, seq<real>, Tok, real> {
    Kernel(Zeros(width),
           m => LoadLanes(dstate, width, m),
           s => SaveLanes(p, dstate, s),
           (s, tok, delta) => StepLanes(p, dstate, width, s, tok, delta),
           (s, tok) => OutVal(p, dstate, width, s, tok),
           p.castOut, p.gate)
  }

  function Zeros(n: nat): (r: seq<real>)
    ensures |r| == n && forall i :: 0 <= i < n ==> r[i] == 0.0
  {
    seq(n, _ => 0.0)
  }

  function LoadLanes(dstate: nat, width: nat, m: seq<real>): (r: seq<real>)
    ensures |r| == width
  {
    seq(width, i requires 0 <= i < width => Lane(m, dstate, i))
  }

  function SaveLanes(p: Params, dstate: nat, s: seq<real>): (r: seq<real>)
    ensures |r| == dstate
  {
    seq(dstate, i requires 0 <= i < dstate => p.castState(Lane(s, dstate, i)))
  }

  /** Padding lanes are inert: the wide state is the narrow one followed by zeros. */
  lemma {:induction false} PaddedRun(p: Params, dstate: nat, width: nat, toks: seq<Tok>, ds: seq<real>, n: nat)
    requires dstate <= width && n <= |toks| == |ds|
    ensures Run(KernelOf(p, dstate, width), Zeros(width), toks, ds, n)
         == Run(KernelOf(p, dstate, dstate), Zeros(dstate), toks, ds, n) + Zeros(width - dstate)
  {
    var wide, narrow := KernelOf(p, dstate, width), KernelOf(p, dstate, dstate);
    if n == 0 {
      assert Zeros(width) == Zeros(dstate) + Zeros(width - dstate);
    } else {
      PaddedRun(p, dstate, width, toks, ds, n - 1);
      var w, s := Run(wide, Zeros(width), toks, ds, n - 1), Run(narrow, Zeros(dstate), toks, ds, n - 1);
      RunLength(p, dstate, dstate, toks, ds, n - 1);
      PaddedStep(p, dstate, width, s, w, toks[n - 1], ds[n - 1]);
    }
  }

  lemma RunLength(p: Params, dstate: nat, width: nat, toks: seq<Tok>, ds: seq<real>, n: nat)
    requires n <= |toks| == |ds|
    ensures |Run(KernelOf(p, dstate, width), Zeros(width), toks, ds, n)| == width
  {
  }

  lemma PaddedStep(p: Params, dstate: nat, width: nat, s: seq<real>, w: seq<real>, tok: Tok, delta: real)
    requires dstate <= width && |s| == dstate && w == s + Zeros(width - dstate)
    ensures StepLanes(p, dstate, width, w, tok, delta)
        == StepLanes(p, dstate, dstate, s, tok, delta) + Zeros(width - dstate)
  {
    var dv := DeltaVal(p, delta);
    var x, y := StepLanes(p, dstate, width, w, tok, delta), StepLanes(p, dstate, dstate, s, tok, delta);
    forall i | dstate <= i < width
      ensures x[i] == 0.0
    {
      assert Lane(w, width, i) == 0.0 && Lane(tok.B, dstate, i) == 0.0;
    }
    forall i | 0 <= i < dstate
      ensures x[i] == y[i]
    {
      assert Lane(w, width, i) == Lane(s, dstate, i);
    }
  }

  /** The masked sum over all lanes is the sum over the real ones. */
  lemma {:induction false} PaddedDot(s: seq<real>, w: seq<real>, C: seq<real>, dstate: nat, width: nat, k: nat)
    requires dstate <= width && |s| == dstate && w == s + Zeros(width - dstate) && k <= width
    ensures Dot(w, C, dstate, k) == Dot(s, C, dstate, Min(k, dstate))
  {
    if k > 0 {
      PaddedDot(s, w, C, dstate, width, k - 1);
      if k > dstate {
        assert Lane(C, dstate, k - 1) == 0.0;
      }
    }
  }

  lemma PaddedOut(p: Params, dstate: nat, width: nat, toks: seq<Tok>, ds: seq<real>, zs: seq<real>, i: nat)
    requires dstate <= width && i < |toks| == |ds| == |zs|
    ensures OutAt(KernelOf(p, dstate, width), Zeros(width), toks, ds, i)
        == OutAt(KernelOf(p, dstate, dstate), Zeros(dstate), toks, ds, i)
    ensures GateAt(KernelOf(p, dstate, width), Zeros(width), toks, ds, zs, i)
        == GateAt(KernelOf(p, dstate, dstate), Zeros(dstate), toks, ds, zs, i)
  {
    PaddedRun(p, dstate, width, toks, ds, i + 1);
    RunLength(p, dstate, dstate, toks, ds, i + 1);
    PaddedOutVal(p, Run(KernelOf(p, dstate, dstate), Zeros(dstate), toks, ds, i + 1),
                 Run(KernelOf(p, dstate, width), Zeros(width), toks, ds, i + 1), toks[i], dstate, width);
  }

  lemma PaddedOutVal(p: Params, s: seq<real>, w: seq<real>, tok: Tok, dstate: nat, width: nat)
    requires dstate <= width && |s| == dstate && w == s + Zeros(width - dstate)
    ensures OutVal(p, dstate, width, w, tok) == OutVal(p, dstate, dstate, s, tok)
  {
    PaddedDot(s, w, tok.C, dstate, width, width);
  }

  /** The padded kernel's outputs, plain and gated, are those of the recurrence on dstate elements. */
  lemma PaddedOutputs(p: Params, dstate: nat, width: nat, toks: seq<Tok>, ds: seq<real>, zs: seq<real>)
    requires dstate <= width && |toks| == |ds| == |zs|
    ensures Outputs(KernelOf(p, dstate, width), Zeros(width), toks, ds)
         == Outputs(KernelOf(p, dstate, dstate), Zeros(dstate), toks, ds)
    ensures GatedOutputs(KernelOf(p, dstate, width), Zeros(width), toks, ds, zs)
         == GatedOutputs(KernelOf(p, dstate, dstate), Zeros(dstate), toks, ds, zs)
  {
    var wide, narrow := KernelOf(p, dstate, width), KernelOf(p, dstate, dstate);
    var x, y := Outputs(wide, Zeros(width), toks, ds), Outputs(narrow, Zeros(dstate), toks, ds);
    var gx, gy := GatedOutputs(wide, Zeros(width), toks, ds, zs), GatedOutputs(narrow, Zeros(dstate), toks, ds, zs);
    forall i | 0 <= i < |toks|
      ensures x[i] == y[i] && gx[i] == gy[i]
    {
      PaddedOut(p, dstate, width, toks, ds, zs, i);
    }
  }

  /** With a state cache that stores values exactly, every reachable wide state survives storage. */
  lemma StorageExact(p: Params, dstate: nat, width: nat, toks: seq<Tok>, ds: seq<real>, n: nat)
    requires dstate <= width && n <= |toks| == |ds|
    requires forall x :: p.castState(x) == x
    ensures var k := KernelOf(p, dstate, width);
            k.load(k.save(Run(k, k.zero, toks, ds, n))) == Run(k, k.zero, toks, ds, n)
  {
    var k := KernelOf(p, dstate, width);
    var s := Run(k, k.zero, toks, ds, n);
    PaddedRun(p, dstate, width, toks, ds, n);
    RunLength(p, dstate, dstate, toks, ds, n);
    var l := LoadLanes(dstate, width, SaveLanes(p, dstate, s));
    assert l == s;
  }

  /** Serving through the prefix cache with padded lanes gives the outputs, plain and gated, of the plain
      dstate-element recurrence. */
  lemma ServedOutputs(p: Params, dstate: nat, width: nat, size: nat, ss: seq<Cache<seq<real>, Tok, real>>,
                      es: seq<Event<Tok, real>>, i: nat, j: nat)
    requires dstate <= width && IsRun(KernelOf(p, dstate, width), size, ss, es) && i < |ss| && j < |ss[i].reqs|
    requires forall x :: p.castState(x) == x
    ensures var r := ss[i].reqs[j];
            && r.from <= r.done <= |r.toks| == |r.ds| == |r.zs|
            && r.gates == GatedOutputs(KernelOf(p, dstate, dstate), Zeros(dstate), r.toks, r.ds, r.zs)[r.from..r.done]
            && r.outs == Outputs(KernelOf(p, dstate, dstate), Zeros(dstate), r.toks, r.ds)[r.from..r.done]
  {
    var k, r := KernelOf(p, dstate, width), ss[i].reqs[j];
    RunInv(k, size, ss, es, i);
    forall c | c in r.cuts && c <= |r.toks|
      ensures k.load(k.save(Run(k, k.zero, r.toks, r.ds, c))) == Run(k, k.zero, r.toks, r.ds, c)
    {
      StorageExact(p, dstate, width, r.toks, r.ds, c);
    }
    CachingIsInvisible(k, size, ss, es, i, j);
    PaddedOutputs(p, dstate, width, r.toks, r.ds, r.zs);
  }
}
