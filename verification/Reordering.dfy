/** Reordering a list reorders what its elements are mapped to. */
module Reordering {
  lemma Remove<T>(xs: seq<T>, j: nat)
    requires j < |xs|
    ensures multiset(xs) == multiset(xs[..j] + xs[j + 1..]) + multiset{xs[j]}
  {
    assert xs == xs[..j] + [xs[j]] + xs[j + 1..];
    assert multiset(xs) == multiset(xs[..j]) + multiset{xs[j]} + multiset(xs[j + 1..]);
  }

  lemma Cancel<T>(a: multiset<T>, b: multiset<T>, x: T)
    requires a + multiset{x} == b + multiset{x}
    ensures a == b
  {
    assert a == a + multiset{x} - multiset{x};
    assert b == b + multiset{x} - multiset{x};
  }

  lemma SameElements<T>(xs: seq<T>, ys: seq<T>)
    requires multiset(xs) == multiset(ys)
    ensures |xs| == |ys| && forall x :: x in xs <==> x in ys
  {
    assert |xs| == |multiset(xs)| && |ys| == |multiset(ys)|;
    assert forall x :: x in xs <==> x in multiset(xs);
    assert forall x :: x in ys <==> x in multiset(ys);
  }

  predicate Image<T(==), U(==)>(f: map<T, U>, xs: seq<T>, us: seq<U>) {
    |xs| == |us| && forall i :: 0 <= i < |xs| ==> xs[i] in f && us[i] == f[xs[i]]
  }

  lemma {:induction false} ImageReordered<T, U>(f: map<T, U>, xs: seq<T>, us: seq<U>, ys: seq<T>, ws: seq<U>)
    requires Image(f, xs, us) && Image(f, ys, ws) && multiset(xs) == multiset(ys)
    ensures multiset(us) == multiset(ws)
    decreases |xs|
  {
    SameElements(xs, ys);
    if xs == [] {
      assert us == [] && ws == [];
    } else {
      assert xs[0] in xs;
      var j :| 0 <= j < |ys| && ys[j] == xs[0];
      Remove(xs, 0);
      Remove(us, 0);
      Remove(ys, j);
      Remove(ws, j);
      Cancel(multiset(xs[..0] + xs[1..]), multiset(ys[..j] + ys[j + 1..]), xs[0]);
      ImageReordered(f, xs[..0] + xs[1..], us[..0] + us[1..], ys[..j] + ys[j + 1..], ws[..j] + ws[j + 1..]);
    }
  }
}
