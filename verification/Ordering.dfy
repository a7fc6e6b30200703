/** Sorting records by their fields, each field by code points. */
module Ordering {
  // ----- the order on strings and on lists of strings -----

  predicate StringBefore(a: string, b: string) {
    if a == [] || b == [] then a == [] && b != []
    else a[0] < b[0] || (a[0] == b[0] && StringBefore(a[1..], b[1..]))
  }

  lemma {:induction false} StringTrichotomy(a: string, b: string)
    ensures a == b || StringBefore(a, b) || StringBefore(b, a)
    ensures !(StringBefore(a, b) && (a == b || StringBefore(b, a)))
  {
    if a != [] && b != [] {
      StringTrichotomy(a[1..], b[1..]);
      assert a == [a[0]] + a[1..] && b == [b[0]] + b[1..];
    }
  }

  lemma {:induction false} StringTransitive(a: string, b: string, c: string)
    requires StringBefore(a, b) && StringBefore(b, c)
    ensures StringBefore(a, c)
  {
    if a != [] && a[0] == b[0] && b[0] == c[0] {
      StringTransitive(a[1..], b[1..], c[1..]);
    }
  }

  predicate Before(a: seq<string>, b: seq<string>) {
    if a == [] || b == [] then a == [] && b != []
    else StringBefore(a[0], b[0]) || (a[0] == b[0] && Before(a[1..], b[1..]))
  }

  lemma {:induction false} Trichotomy(a: seq<string>, b: seq<string>)
    ensures a == b || Before(a, b) || Before(b, a)
    ensures !(Before(a, b) && (a == b || Before(b, a)))
  {
    if a != [] && b != [] {
      StringTrichotomy(a[0], b[0]);
      Trichotomy(a[1..], b[1..]);
      assert a == [a[0]] + a[1..] && b == [b[0]] + b[1..];
    }
  }

  lemma {:induction false} Transitive(a: seq<string>, b: seq<string>, c: seq<string>)
    requires Before(a, b) && Before(b, c)
    ensures Before(a, c)
  {
    if a != [] {
      if StringBefore(a[0], b[0]) && StringBefore(b[0], c[0]) {
        StringTransitive(a[0], b[0], c[0]);
      } else if a[0] == b[0] && b[0] == c[0] {
        Transitive(a[1..], b[1..], c[1..]);
      }
    }
  }

  // ----- what the orders compare -----

  /** The sequences first differ at `k`. */
  predicate Differ<T(==)>(a: seq<T>, b: seq<T>, k: nat) {
    && k <= |a| && k <= |b| && (forall i :: 0 <= i < k ==> a[i] == b[i])
    && (k == |a| || k == |b| || a[k] != b[k])
  }

  lemma {:induction false} DifferSomewhere<T>(a: seq<T>, b: seq<T>) returns (k: nat)
    ensures Differ(a, b, k)
  {
    if a == [] || b == [] || a[0] != b[0] {
      k := 0;
    } else {
      var below := DifferSomewhere(a[1..], b[1..]);
      DifferCons(a, b, below);
      k := below + 1;
    }
  }

  lemma DifferCons<T>(a: seq<T>, b: seq<T>, k: nat)
    requires a != [] && b != [] && a[0] == b[0] && Differ(a[1..], b[1..], k)
    ensures Differ(a, b, k + 1)
  {
    forall i | 0 <= i < k + 1
      ensures a[i] == b[i]
    {
      if i > 0 {
        assert a[1..][i - 1] == b[1..][i - 1];
      }
    }
  }

  /** Where two strings first differ, the one that comes before ends or has the smaller code point. */
  lemma {:induction false} StringBeforeMeans(a: string, b: string, k: nat)
    requires Differ(a, b, k)
    ensures StringBefore(a, b) <==> k < |b| && (k == |a| || a[k] < b[k])
  {
    if k > 0 {
      assert Differ(a[1..], b[1..], k - 1);
      StringBeforeMeans(a[1..], b[1..], k - 1);
    }
  }

  /** Where two records first differ, the one that comes before ends or has the field that comes before. */
  lemma {:induction false} BeforeMeans(a: seq<string>, b: seq<string>, k: nat)
    requires Differ(a, b, k)
    ensures Before(a, b) <==> k < |b| && (k == |a| || StringBefore(a[k], b[k]))
  {
    if k > 0 {
      StringTrichotomy(a[0], b[0]);
      assert Differ(a[1..], b[1..], k - 1);
      BeforeMeans(a[1..], b[1..], k - 1);
    }
  }

  // ----- sorted sequences -----

  predicate Ascending<T(!new)>(s: seq<T>, row: T -> seq<string>) {
    forall i, j :: 0 <= i < j < |s| ==> Before(row(s[i]), row(s[j]))
  }

  /** A sorted sequence is determined by its elements. */
  lemma {:induction false} AscendingUnique<T(!new)>(s: seq<T>, t: seq<T>, row: T -> seq<string>)
    requires Ascending(s, row) && Ascending(t, row)
    requires forall x :: x in s <==> x in t
    ensures s == t
  {
    assert |s| > 0 ==> s[0] in t;
    assert |t| > 0 ==> t[0] in s;
    if s != [] {
      assert s[0] in t && t[0] in s;
      Trichotomy(row(s[0]), row(t[0]));
      assert s[0] == t[0];
      forall x
        ensures x in s[1..] <==> x in t[1..]
      {
        Trichotomy(row(s[0]), row(x));
        assert x in s <==> x == s[0] || x in s[1..];
        assert x in t <==> x == t[0] || x in t[1..];
      }
      AscendingUnique(s[1..], t[1..], row);
    }
  }

  /** The lists that hold those of the first `n` elements of a sequence that are wanted, sorted. */
  ghost function Picks<T(!new)>(s: seq<T>, n: nat, wanted: iset<T>, row: T -> seq<string>): iset<seq<T>>
    requires n <= |s|
  {
    iset list: seq<T> | Ascending(list, row) && forall x :: x in list <==> x in s[..n] && x in wanted
  }

  lemma PicksNone<T(!new)>(s: seq<T>, wanted: iset<T>, row: T -> seq<string>)
    ensures [] in Picks(s, 0, wanted, row)
  {
  }

  /** A list that grows along a sorted sequence stays sorted. */
  lemma PicksStep<T(!new)>(list: seq<T>, s: seq<T>, n: nat, wanted: iset<T>, row: T -> seq<string>)
    requires n < |s| && Ascending(s, row) && list in Picks(s, n, wanted, row)
    ensures (if s[n] in wanted then list + [s[n]] else list) in Picks(s, n + 1, wanted, row)
  {
    assert s[..n + 1] == s[..n] + [s[n]];
    forall k | 0 <= k < |list|
      ensures Before(row(list[k]), row(s[n]))
    {
      assert list[k] in s[..n];
      var j :| 0 <= j < n && s[j] == list[k];
    }
  }

  lemma PicksAll<T(!new)>(list: seq<T>, s: seq<T>, wanted: iset<T>, row: T -> seq<string>)
    requires list in Picks(s, |s|, wanted, row)
    ensures Ascending(list, row) && forall x :: x in list <==> x in s && x in wanted
  {
    assert s[..|s|] == s;
  }

  function Insert<T(!new)>(x: T, s: seq<T>, row: T -> seq<string>): seq<T> {
    if s == [] || Before(row(x), row(s[0])) then [x] + s
    else [s[0]] + Insert(x, s[1..], row)
  }

  lemma {:induction false} Inserted<T(!new)>(x: T, s: seq<T>, row: T -> seq<string>)
    requires Ascending(s, row) && forall y :: y in s ==> row(y) != row(x)
    ensures Ascending(Insert(x, s, row), row)
    ensures forall y :: y in Insert(x, s, row) <==> y == x || y in s
  {
    var r := Insert(x, s, row);
    if s != [] {
      Trichotomy(row(x), row(s[0]));
      if Before(row(x), row(s[0])) {
        forall j | 1 <= j < |r|
          ensures Before(row(x), row(r[j]))
        {
          if j > 1 {
            Transitive(row(x), row(s[0]), row(s[j - 1]));
          }
        }
      } else {
        var t := Insert(x, s[1..], row);
        Inserted(x, s[1..], row);
        assert forall y :: y in s <==> y == s[0] || y in s[1..];
        forall j | 1 <= j < |r|
          ensures Before(row(s[0]), row(r[j]))
        {
          assert r == [s[0]] + t;
          assert r[j] == t[j - 1] && t[j - 1] in t;
          if r[j] != x {
            assert r[j] in s[1..];
            var k :| 0 <= k < |s[1..]| && s[1..][k] == r[j];
            assert s[1..][k] == s[k + 1];
          }
        }
      }
    }
  }

  /** Sort a set of records that differ in their fields. */
  method Sort<T(==, !new)>(xs: set<T>, row: T -> seq<string>) returns (s: seq<T>)
    requires forall x, y :: x in xs && y in xs && row(x) == row(y) ==> x == y
    ensures Ascending(s, row)
    ensures forall x :: x in s <==> x in xs
  {
    s := [];
    var rest := xs;
    while rest != {}
      invariant rest <= xs && Ascending(s, row)
      invariant forall x :: x in s <==> x in xs && x !in rest
      decreases |rest|
    {
      var x :| x in rest;
      Inserted(x, s, row);
      s := Insert(x, s, row);
      rest := rest - {x};
    }
  }

  // ----- chains -----

  ghost predicate IsTransitive<T(!new)>(related: iset<(T, T)>) {
    forall a, b, c :: (b, a) in related && (c, b) in related ==> (c, a) in related
  }

  ghost predicate Linked<T(!new)>(related: iset<(T, T)>, chain: seq<T>, i: nat)
    requires i + 1 < |chain|
  {
    (chain[i + 1], chain[i]) in related
  }

  /** In a chain of related elements each is related to the first. */
  lemma {:induction false} ChainReaches<T(!new)>(related: iset<(T, T)>, chain: seq<T>, n: nat)
    requires IsTransitive(related) && n < |chain| && (chain[0], chain[0]) in related
    requires forall i :: 0 <= i < |chain| - 1 ==> Linked(related, chain, i)
    ensures (chain[n], chain[0]) in related
  {
    if n > 0 {
      ChainReaches(related, chain, n - 1);
      assert Linked(related, chain, n - 1);
    }
  }
}
