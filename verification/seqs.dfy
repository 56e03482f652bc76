/** Order-preserving filter-map over sequences: a list comprehension
    `[f(x) for x in xs if f(x) is not None]`, with the positions it keeps. */
module Seqs {
  import opened Wrappers

  /** The results `f` yields on `xs`, in order, skipping the Nones. */
  function FilterMap<A, B>(f: A -> Option<B>, xs: seq<A>): (r: seq<B>)
    ensures |r| <= |xs|
  {
    if xs == [] then []
    else
      match f(xs[0])
      case Some(y) => [y] + FilterMap(f, xs[1..])
      case None => FilterMap(f, xs[1..])
  }

  /** Positions, offset by `base`, where `f` yields a value. */
  function Kept<A, B>(f: A -> Option<B>, xs: seq<A>, base: nat): seq<nat> {
    if xs == [] then []
    else (if f(xs[0]).Some? then [base] else []) + Kept(f, xs[1..], base + 1)
  }

  lemma {:induction false} KeptLength<A, B>(f: A -> Option<B>, xs: seq<A>, base: nat)
    ensures |Kept(f, xs, base)| == |FilterMap(f, xs)|
  {
    if xs != [] { KeptLength(f, xs[1..], base + 1); }
  }

  lemma {:induction false} KeptIncreasing<A, B>(f: A -> Option<B>, xs: seq<A>, base: nat)
    ensures forall i :: 0 <= i < |Kept(f, xs, base)| ==> base <= Kept(f, xs, base)[i] < base + |xs|
    ensures forall i, j :: 0 <= i < j < |Kept(f, xs, base)| ==> Kept(f, xs, base)[i] < Kept(f, xs, base)[j]
  {
    if xs != [] { KeptIncreasing(f, xs[1..], base + 1); }
  }

  lemma {:induction false} KeptItemAt<A, B>(f: A -> Option<B>, xs: seq<A>, base: nat, i: nat)
    requires i < |Kept(f, xs, base)|
    ensures i < |FilterMap(f, xs)|
    ensures base <= Kept(f, xs, base)[i] < base + |xs|
    ensures f(xs[Kept(f, xs, base)[i] - base]) == Some(FilterMap(f, xs)[i])
  {
    KeptLength(f, xs, base);
    var ks := Kept(f, xs, base);
    var tail := Kept(f, xs[1..], base + 1);
    if f(xs[0]).Some? {
      assert ks == [base] + tail;
      if i > 0 {
        KeptItemAt(f, xs[1..], base + 1, i - 1);
        assert ks[i] == tail[i - 1];
        assert xs[ks[i] - base] == xs[1..][tail[i - 1] - (base + 1)];
      }
    } else {
      assert ks == tail;
      KeptItemAt(f, xs[1..], base + 1, i);
      assert xs[ks[i] - base] == xs[1..][tail[i] - (base + 1)];
    }
  }

  lemma {:induction false} KeptComplete<A, B>(f: A -> Option<B>, xs: seq<A>, base: nat)
    ensures forall n :: base <= n < base + |xs| && n !in Kept(f, xs, base) ==> f(xs[n - base]).None?
  {
    if xs != [] {
      KeptComplete(f, xs[1..], base + 1);
      var ks := Kept(f, xs, base);
      var tail := Kept(f, xs[1..], base + 1);
      assert ks == (if f(xs[0]).Some? then [base] else []) + tail;
      forall n | base <= n < base + |xs| && n !in ks
        ensures f(xs[n - base]).None?
      {
        if n > base {
          assert n !in tail;
          assert xs[1..][n - (base + 1)] == xs[n - base];
        }
      }
    }
  }

  /** FilterMap is an order-preserving filter: its i-th result comes from the
      i-th kept position, kept positions increase, and every position not kept
      yields None. */
  lemma FilterMapKeepsOrder<A, B>(f: A -> Option<B>, xs: seq<A>)
    ensures |Kept(f, xs, 0)| == |FilterMap(f, xs)|
    ensures forall i, j :: 0 <= i < j < |Kept(f, xs, 0)| ==> Kept(f, xs, 0)[i] < Kept(f, xs, 0)[j]
    ensures forall i :: 0 <= i < |Kept(f, xs, 0)| ==>
              Kept(f, xs, 0)[i] < |xs| && f(xs[Kept(f, xs, 0)[i]]) == Some(FilterMap(f, xs)[i])
    ensures forall n :: 0 <= n < |xs| && n !in Kept(f, xs, 0) ==> f(xs[n]).None?
  {
    KeptLength(f, xs, 0);
    KeptIncreasing(f, xs, 0);
    KeptComplete(f, xs, 0);
    forall i | 0 <= i < |Kept(f, xs, 0)|
      ensures Kept(f, xs, 0)[i] < |xs| && f(xs[Kept(f, xs, 0)[i]]) == Some(FilterMap(f, xs)[i])
    {
      KeptItemAt(f, xs, 0, i);
    }
  }

  /** Membership: every result comes from some element, and every element
      that yields a value contributes it. */
  lemma {:induction false} FilterMapMember<A, B>(f: A -> Option<B>, xs: seq<A>, y: B)
    ensures y in FilterMap(f, xs) <==> exists x :: x in xs && f(x) == Some(y)
  {
    if xs != [] {
      FilterMapMember(f, xs[1..], y);
      if exists x :: x in xs && f(x) == Some(y) {
        var x :| x in xs && f(x) == Some(y);
        if x != xs[0] {
          assert x in xs[1..];
        }
      }
    }
  }

  lemma FilterMapMembers<A, B>(f: A -> Option<B>, xs: seq<A>)
    ensures forall y :: y in FilterMap(f, xs) <==> exists x :: x in xs && f(x) == Some(y)
  {
    forall y ensures y in FilterMap(f, xs) <==> exists x :: x in xs && f(x) == Some(y) {
      FilterMapMember(f, xs, y);
    }
  }
}
