/** Steps that commute pairwise may be taken in any order. */
module CommutingSteps {

  /** On states that satisfy `ok`, any two different steps of `all` commute, and each keeps `ok`. */
  ghost predicate Commute<P(!new), M(!new)>(step: (P, M) -> M, ok: M -> bool, all: set<P>) {
    && (forall p, m :: p in all && ok(m) ==> ok(step(p, m)))
    && (forall p, q, m :: p in all && q in all && p != q && ok(m) ==> step(p, step(q, m)) == step(q, step(p, m)))
  }

  function Fold<P, M>(step: (P, M) -> M, ps: seq<P>, m: M): M {
    if ps == [] then m else Fold(step, ps[1..], step(ps[0], m))
  }

  predicate From<P>(ps: seq<P>, all: set<P>) {
    forall i :: 0 <= i < |ps| ==> ps[i] in all
  }

  lemma {:induction false} FoldSplit<P, M>(step: (P, M) -> M, ps: seq<P>, qs: seq<P>, m: M)
    ensures Fold(step, ps + qs, m) == Fold(step, qs, Fold(step, ps, m))
  {
    if ps == [] {
      assert ps + qs == qs;
    } else {
      assert (ps + qs)[1..] == ps[1..] + qs;
      FoldSplit(step, ps[1..], qs, step(ps[0], m));
    }
  }

  /** A step that is not among the ones before it can be taken first. */
  lemma {:induction false} FoldFirst<P(!new), M(!new)>(step: (P, M) -> M, ok: M -> bool, all: set<P>, ps: seq<P>, x: P,
                                                       m: M)
    requires Commute(step, ok, all) && ok(m) && From(ps, all) && x in all && x !in ps
    ensures Fold(step, ps, step(x, m)) == step(x, Fold(step, ps, m))
  {
    if ps != [] {
      assert step(x, step(ps[0], m)) == step(ps[0], step(x, m));
      FoldFirst(step, ok, all, ps[1..], x, step(ps[0], m));
    }
  }

  lemma PullFront<P(!new), M(!new)>(step: (P, M) -> M, ok: M -> bool, all: set<P>, before: seq<P>, x: P, after: seq<P>,
                                    m: M)
    requires Commute(step, ok, all) && ok(m) && From(before, all) && x in all && x !in before
    ensures Fold(step, before + ([x] + after), m) == Fold(step, before + after, step(x, m))
  {
    FoldSplit(step, before, [x] + after, m);
    assert ([x] + after)[1..] == after;
    FoldFirst(step, ok, all, before, x, m);
    FoldSplit(step, before, after, step(x, m));
  }

  lemma SameMembers<P>(ps: seq<P>, qs: seq<P>)
    requires multiset(ps) == multiset(qs)
    ensures |ps| == |qs| && forall p :: p in qs <==> p in ps
  {
    assert |multiset(ps)| == |ps| && |multiset(qs)| == |qs|;
    assert forall p :: p in qs <==> p in multiset(qs);
    assert forall p :: p in ps <==> p in multiset(ps);
  }

  lemma Remaining<P>(ps: seq<P>, qs: seq<P>, j: nat)
    requires ps != [] && j < |qs| && qs[j] == ps[0] && multiset(ps) == multiset(qs)
    requires forall i, j :: 0 <= i < j < |ps| ==> ps[i] != ps[j]
    ensures qs == qs[..j] + ([ps[0]] + qs[j + 1..])
    ensures ps[0] !in ps[1..] && multiset(ps[1..]) == multiset(qs[..j] + qs[j + 1..])
  {
    assert ps == [ps[0]] + ps[1..];
    assert qs == qs[..j] + ([ps[0]] + qs[j + 1..]);
    assert multiset(ps[1..]) == multiset(ps) - multiset{ps[0]};
    assert multiset(qs[..j] + qs[j + 1..]) == multiset(qs) - multiset{ps[0]};
  }

  /** Every order of the same steps leads to the same state. */
  lemma {:induction false} AnyOrder<P(!new), M(!new)>(step: (P, M) -> M, ok: M -> bool, all: set<P>, ps: seq<P>,
                                                      qs: seq<P>, m: M)
    requires Commute(step, ok, all) && ok(m) && From(ps, all) && From(qs, all)
    requires multiset(ps) == multiset(qs) && forall i, j :: 0 <= i < j < |ps| ==> ps[i] != ps[j]
    ensures Fold(step, ps, m) == Fold(step, qs, m)
    decreases |ps|
  {
    SameMembers(ps, qs);
    if ps != [] {
      var x := ps[0];
      assert x in ps && x in qs;
      var j :| 0 <= j < |qs| && qs[j] == x;
      Remaining(ps, qs, j);
      var before, after := qs[..j], qs[j + 1..];
      SameMembers(ps[1..], before + after);
      assert x !in before by {
        assert forall p :: p in before ==> p in before + after;
      }
      PullFront(step, ok, all, before, x, after, m);
      AnyOrder(step, ok, all, ps[1..], before + after, step(x, m));
    }
  }
}
