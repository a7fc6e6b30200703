/** Places in a tree, named by the positions of the children on the way to them. */
module Trails {
  /** Depth first: a place comes before those below it, and earlier children come before later ones. */
  predicate Precedes(a: seq<nat>, b: seq<nat>)
    decreases |a|
  {
    b != [] && (a == [] || a[0] < b[0] || (a[0] == b[0] && Precedes(a[1..], b[1..])))
  }

  lemma {:induction false} PrecedesOnce(a: seq<nat>)
    ensures !Precedes(a, a)
    decreases |a|
  {
    if a != [] {
      PrecedesOnce(a[1..]);
    }
  }

  lemma StepDown(n: nat, a: seq<nat>, b: seq<nat>)
    ensures Precedes([n] + a, [n] + b) <==> Precedes(a, b)
    ensures a != [] ==> Precedes([n], [n] + a)
  {
    assert ([n] + a)[1..] == a && ([n] + b)[1..] == b && [n][1..] == [];
  }
}
