/** Lists whose elements carry an identifier: look-up, replacement by identifier,
    and the order in which identifiers are first mentioned. */
module Keyed {
  import opened Wrappers

  type Id = string

  /** The identifiers of a list, in order. */
  function Keys<T>(xs: seq<T>, key: T -> Id): (ks: seq<Id>)
    ensures |ks| == |xs|
    ensures forall i :: 0 <= i < |xs| ==> ks[i] == key(xs[i])
  {
    seq(|xs|, i requires 0 <= i < |xs| => key(xs[i]))
  }

  ghost predicate Distinct<T>(ks: seq<T>) {
    forall i, j :: 0 <= i < j < |ks| ==> ks[i] != ks[j]
  }

  /** JavaScript's `findIndex` by identifier: the first position, or -1. */
  function IndexOf<T>(xs: seq<T>, k: Id, key: T -> Id): (r: int)
    ensures -1 <= r < |xs|
    ensures r >= 0 ==> key(xs[r]) == k && forall i :: 0 <= i < r ==> key(xs[i]) != k
    ensures r < 0 ==> forall i :: 0 <= i < |xs| ==> key(xs[i]) != k
  {
    if xs == [] then -1
    else if key(xs[0]) == k then 0
    else
      var r := IndexOf(xs[1..], k, key);
      if r < 0 then -1 else r + 1
  }

  /** JavaScript's `find` by identifier. */
  function Find<T>(xs: seq<T>, k: Id, key: T -> Id): Option<T> {
    var i := IndexOf(xs, k, key);
    if i < 0 then None else Some(xs[i])
  }

  /** Replace the first element with the same identifier, or append. */
  function Upsert<T>(xs: seq<T>, x: T, key: T -> Id): seq<T> {
    var i := IndexOf(xs, key(x), key);
    if i < 0 then xs + [x] else xs[i := x]
  }

  /** The identifiers of `ks` without repeats, each at the place of its first mention. */
  function FirstSeen(ks: seq<Id>): (r: seq<Id>)
    ensures Distinct(r)
    ensures forall k :: k in r <==> k in ks
  {
    if ks == [] then []
    else
      var r := FirstSeen(ks[..|ks| - 1]);
      var k := ks[|ks| - 1];
      if k in r then r else r + [k]
  }

  /** Adding one mention to the end either changes nothing or adds the identifier at the end. */
  lemma FirstSeenAppend(ks: seq<Id>, k: Id)
    ensures FirstSeen(ks + [k]) == if k in ks then FirstSeen(ks) else FirstSeen(ks) + [k]
  {
    assert (ks + [k])[..|ks|] == ks;
  }

  lemma {:induction false} FirstSeenDistinct(ks: seq<Id>)
    requires Distinct(ks)
    ensures FirstSeen(ks) == ks
  {
    if ks != [] {
      var front := ks[..|ks| - 1];
      FirstSeenDistinct(front);
      assert ks == front + [ks[|ks| - 1]];
    }
  }

  /** With distinct identifiers, membership in the list is what `Find` reports. */
  lemma FindAt<T>(xs: seq<T>, i: int, key: T -> Id)
    requires Distinct(Keys(xs, key))
    requires 0 <= i < |xs|
    ensures Find(xs, key(xs[i]), key) == Some(xs[i])
  {
    var r := IndexOf(xs, key(xs[i]), key);
    assert Keys(xs, key)[r] == Keys(xs, key)[i];
  }

  lemma FindPresent<T>(xs: seq<T>, k: Id, key: T -> Id)
    ensures Find(xs, k, key).Some? <==> k in Keys(xs, key)
  {
    var r := IndexOf(xs, k, key);
    if r >= 0 {
      assert Keys(xs, key)[r] == k;
    }
  }

  /** Two lists with the same distinct identifiers and the same look-ups are the same list. */
  lemma Extensional<T>(xs: seq<T>, ys: seq<T>, key: T -> Id)
    requires Keys(xs, key) == Keys(ys, key)
    requires Distinct(Keys(xs, key))
    requires forall k :: k in Keys(xs, key) ==> Find(xs, k, key) == Find(ys, k, key)
    ensures xs == ys
  {
    assert |xs| == |Keys(xs, key)| == |ys|;
    forall i | 0 <= i < |xs|
      ensures xs[i] == ys[i]
    {
      FindAt(xs, i, key);
      FindAt(ys, i, key);
      assert Keys(xs, key)[i] == key(xs[i]) == Keys(ys, key)[i] == key(ys[i]);
      assert key(xs[i]) in Keys(xs, key);
    }
  }

  /** What `Upsert` does to the identifiers and to every look-up. */
  lemma UpsertEffect<T>(xs: seq<T>, x: T, key: T -> Id)
    requires Distinct(Keys(xs, key))
    ensures Keys(Upsert(xs, x, key), key)
         == if key(x) in Keys(xs, key) then Keys(xs, key) else Keys(xs, key) + [key(x)]
    ensures Distinct(Keys(Upsert(xs, x, key), key))
    ensures forall k ::
      Find(Upsert(xs, x, key), k, key) == if k == key(x) then Some(x) else Find(xs, k, key)
  {
    var ys := Upsert(xs, x, key);
    var i := IndexOf(xs, key(x), key);
    if i >= 0 {
      assert Keys(xs, key)[i] == key(x);
    }
    assert Keys(ys, key) == if i >= 0 then Keys(xs, key) else Keys(xs, key) + [key(x)];
    forall k
      ensures Find(ys, k, key) == if k == key(x) then Some(x) else Find(xs, k, key)
    {
      FindAt(ys, if i < 0 then |xs| else i, key);
      var r := IndexOf(xs, k, key);
      if k != key(x) && r >= 0 {
        assert ys[r] == xs[r];
        FindAt(ys, r, key);
      } else if k != key(x) {
        FindPresent(ys, k, key);
      }
    }
  }

  // ----- de-duplication: first position, last value -----

  /** The last element of `xs` that has identifier `k`. */
  function LastWith<T>(xs: seq<T>, k: Id, key: T -> Id): (r: T)
    requires k in Keys(xs, key)
    ensures r in xs && key(r) == k
  {
    if key(xs[|xs| - 1]) == k then xs[|xs| - 1]
    else
      assert xs == xs[..|xs| - 1] + [xs[|xs| - 1]];
      assert k in Keys(xs[..|xs| - 1], key) by {
        var i :| 0 <= i < |xs| && Keys(xs, key)[i] == k;
        assert Keys(xs[..|xs| - 1], key)[i] == k;
      }
      LastWith(xs[..|xs| - 1], k, key)
  }

  /** Each identifier once, at its first position, with its last value. */
  function Dedup<T>(xs: seq<T>, key: T -> Id): seq<T> {
    var ks := FirstSeen(Keys(xs, key));
    seq(|ks|, i requires 0 <= i < |ks| => assert ks[i] in ks; LastWith(xs, ks[i], key))
  }

  /** Growing the input by one element upserts that element into the de-duplicated list. */
  lemma DedupAppend<T>(xs: seq<T>, x: T, key: T -> Id)
    ensures Dedup(xs + [x], key) == Upsert(Dedup(xs, key), x, key)
  {
    var ys := xs + [x];
    var ks := FirstSeen(Keys(xs, key));
    assert Keys(ys, key) == Keys(xs, key) + [key(x)];
    FirstSeenAppend(Keys(xs, key), key(x));
    var d := Dedup(xs, key);
    assert Keys(d, key) == ks;
    assert ys[..|ys| - 1] == xs;
    var i := IndexOf(d, key(x), key);
    if i >= 0 {
      assert ks[i] == key(x);
      assert ks[i] in ks;
    }
    var e := Dedup(ys, key);
    var u := Upsert(d, x, key);
    assert |e| == |u|;
    forall j | 0 <= j < |e|
      ensures e[j] == u[j]
    {
      if j < |ks| && ks[j] != key(x) {
        assert ks[j] in ks;
        assert e[j] == LastWith(ys, ks[j], key) == LastWith(xs, ks[j], key) == d[j];
      }
    }
  }
}
