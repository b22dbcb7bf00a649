/**
 A recurrent scan over tokens, with everything numerical left as parameters. `S` is the state held in
 registers, `M` its stored form, `T` the read-only inputs of a token (u, B, C), `V` an element of the
 delta/z buffers and of the outputs written over them.
 */
module Recurrence {

  datatype Kernel<!S, !M, !T, !V> = Kernel(
    zero: S,
    load: M -> S,
    save: S -> M,
    step: (S, T, V) -> S,
    out: (S, T) -> V,
    castOut: V -> V,
    gate: (V, V) -> V)

  /** The plain scan: the state after the first `n` tokens. */
  function Run<S, M, T, V>(k: Kernel<S, M, T, V>, s: S, toks: seq<T>, ds: seq<V>, n: nat): S
    requires n <= |toks| == |ds|
  {
    if n == 0 then s else k.step(Run(k, s, toks, ds, n - 1), toks[n - 1], ds[n - 1])
  }

  /** The output of token `i`, computed from the state that already includes it. */
  function OutAt<S, M, T, V>(k: Kernel<S, M, T, V>, s: S, toks: seq<T>, ds: seq<V>, i: nat): V
    requires i < |toks| == |ds|
  {
    k.castOut(k.out(Run(k, s, toks, ds, i + 1), toks[i]))
  }

  function GateAt<S, M, T, V>(k: Kernel<S, M, T, V>, s: S, toks: seq<T>, ds: seq<V>, zs: seq<V>, i: nat): V
    requires i < |toks| == |ds| == |zs|
  {
    k.gate(k.out(Run(k, s, toks, ds, i + 1), toks[i]), zs[i])
  }

  function Outputs<S, M, T, V>(k: Kernel<S, M, T, V>, s: S, toks: seq<T>, ds: seq<V>): (o: seq<V>)
    requires |toks| == |ds|
    ensures |o| == |toks|
  {
    seq(|toks|, i requires 0 <= i < |toks| => OutAt(k, s, toks, ds, i))
  }

  function GatedOutputs<S, M, T, V>(k: Kernel<S, M, T, V>, s: S, toks: seq<T>, ds: seq<V>, zs: seq<V>): (o: seq<V>)
    requires |toks| == |ds| == |zs|
    ensures |o| == |toks|
  {
    seq(|toks|, i requires 0 <= i < |toks| => GateAt(k, s, toks, ds, zs, i))
  }
}
