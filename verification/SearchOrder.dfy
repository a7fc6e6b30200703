/** The order in which the walk lists what it finds. */
module SearchOrder {
  import opened Search
  import opened Trails

  predicate InOrder(trails: seq<seq<nat>>) {
    forall i, j :: 0 <= i < j < |trails| ==> Precedes(trails[i], trails[j])
  }

  predicate Starts(trails: seq<seq<nat>>, from: nat, to: nat) {
    forall i :: 0 <= i < |trails| ==> trails[i] != [] && from <= trails[i][0] < to
  }

  lemma JoinInOrder(a: seq<seq<nat>>, b: seq<seq<nat>>, n: nat, to: nat)
    requires InOrder(a) && InOrder(b) && Starts(a, n, n + 1) && Starts(b, n + 1, to) && n < to
    ensures InOrder(a + b) && Starts(a + b, n, to)
  {
    forall i, j | 0 <= i < j < |a + b|
      ensures Precedes((a + b)[i], (a + b)[j])
    {
      if i < |a| <= j {
        assert a[i][0] < b[j - |a|][0];
      }
    }
  }

  /** The trails below entry `n` as trails from its directory. */
  function Below(n: nat, trails: seq<seq<nat>>): (r: seq<seq<nat>>)
    ensures |r| == |trails| && forall i :: 0 <= i < |r| ==> r[i] == [n] + trails[i]
  {
    seq(|trails|, i requires 0 <= i < |trails| => [n] + trails[i])
  }

  /** The trails of an entry: its own, if it is found, and those below it. */
  lemma EntryInOrder(n: nat, named: bool, below: seq<seq<nat>>)
    requires InOrder(below) && forall i :: 0 <= i < |below| ==> below[i] != []
    ensures var trails := (if named then [[n]] else []) + Below(n, below);
      InOrder(trails) && Starts(trails, n, n + 1)
  {
    var trails := (if named then [[n]] else []) + Below(n, below);
    var k := if named then 1 else 0;
    forall i, j | 0 <= i < j < |trails|
      ensures Precedes(trails[i], trails[j])
    {
      if i < k {
        StepDown(n, below[j - k], below[j - k]);
      } else {
        assert Precedes(below[i - k], below[j - k]);
        StepDown(n, below[i - k], below[j - k]);
      }
    }
  }

  /** The trails list hits: the `i`th trail leads to the `i`th entry found. */
  predicate Lists(path: string, listing: Listing, query: Query, depth: nat, trails: seq<seq<nat>>, found: seq<Found>) {
    |trails| == |found| && forall i :: 0 <= i < |trails| ==> IsHit(path, listing, query, depth, trails[i], found[i])
  }

  /** Every hit from a position on is listed. */
  ghost predicate Complete(path: string, listing: Listing, query: Query, depth: nat, trails: seq<seq<nat>>, from: nat,
                           to: nat) {
    forall trail, f :: IsHit(path, listing, query, depth, trail, f) && from <= trail[0] < to ==> trail in trails
  }

  lemma HitBelow(path: string, listing: Listing, query: Query, depth: nat, n: nat, trail: seq<nat>, f: Found)
    requires depth <= DEPTH_LIMIT && listing.Listing? && n < |listing.entries| && trail != []
    ensures var d := listing.entries[n];
      IsHit(path, listing, query, depth, [n] + trail, f)
      <==> d.name != ".DS_Store" && Entered(d)
           && IsHit(query.join(path, d.name), d.listing, query, depth + 1, trail, f)
  {
    assert ([n] + trail)[1..] == trail && |[n] + trail| > 1;
  }

  lemma HitHere(path: string, listing: Listing, query: Query, depth: nat, n: nat, f: Found)
    requires depth <= DEPTH_LIMIT && listing.Listing? && n < |listing.entries|
    ensures var d := listing.entries[n];
      IsHit(path, listing, query, depth, [n], f)
      <==> d.name != ".DS_Store" && f == Found(d.name, query.join(path, d.name), d.Directory?) && Hits(query, d.name)
  {
  }

  lemma {:induction false} EntryTrails(path: string, listing: Listing, query: Query, depth: nat, n: nat)
    returns (trails: seq<seq<nat>>)
    requires depth <= DEPTH_LIMIT && listing.Listing? && n < |listing.entries|
    ensures InOrder(trails) && Starts(trails, n, n + 1)
    ensures Lists(path, listing, query, depth, trails, WalkEntry(path, listing.entries[n], query, depth))
    ensures Complete(path, listing, query, depth, trails, n, n + 1)
    decreases listing, 0
  {
    var d := listing.entries[n];
    var at := query.join(path, d.name);
    var named := d.name != ".DS_Store" && Hits(query, d.name);
    var below: seq<seq<nat>> := [];
    if d.name != ".DS_Store" && Entered(d) {
      below := WalkInOrder(at, d.listing, query, depth + 1);
    }
    trails := (if named then [[n]] else []) + Below(n, below);
    EntryInOrder(n, named, below);
    EntryLists(path, listing, query, depth, n, named, below);
    EntryComplete(path, listing, query, depth, n, named, below);
  }

  /** What is below an entry, when it is entered. */
  function Inside(path: string, d: Dirent, query: Query, depth: nat): seq<Found> {
    if d.name != ".DS_Store" && Entered(d) then Walk(query.join(path, d.name), d.listing, query, depth + 1) else []
  }

  predicate BelowListed(path: string, d: Dirent, query: Query, depth: nat, below: seq<seq<nat>>) {
    && (forall i :: 0 <= i < |below| ==> below[i] != [])
    && if d.name != ".DS_Store" && Entered(d)
       then Lists(query.join(path, d.name), d.listing, query, depth + 1, below, Inside(path, d, query, depth))
       else below == []
  }

  lemma EntryFound(path: string, d: Dirent, query: Query, depth: nat, named: bool)
    requires named == (d.name != ".DS_Store" && Hits(query, d.name))
    ensures WalkEntry(path, d, query, depth)
            == (if named then [Found(d.name, query.join(path, d.name), d.Directory?)] else [])
               + Inside(path, d, query, depth)
  {
  }

  lemma EntryLists(path: string, listing: Listing, query: Query, depth: nat, n: nat, named: bool,
                   below: seq<seq<nat>>)
    requires depth <= DEPTH_LIMIT && listing.Listing? && n < |listing.entries|
    requires var d := listing.entries[n];
      named == (d.name != ".DS_Store" && Hits(query, d.name)) && BelowListed(path, d, query, depth, below)
    ensures Lists(path, listing, query, depth, (if named then [[n]] else []) + Below(n, below),
                  WalkEntry(path, listing.entries[n], query, depth))
  {
    var d := listing.entries[n];
    var inside := Inside(path, d, query, depth);
    var trails := (if named then [[n]] else []) + Below(n, below);
    var k := if named then 1 else 0;
    var found := WalkEntry(path, d, query, depth);
    EntryFound(path, d, query, depth, named);
    forall i | 0 <= i < |trails|
      ensures IsHit(path, listing, query, depth, trails[i], found[i])
    {
      if i < k {
        HitHere(path, listing, query, depth, n, found[i]);
      } else {
        HitBelow(path, listing, query, depth, n, below[i - k], found[i]);
      }
    }
  }

  lemma EntryComplete(path: string, listing: Listing, query: Query, depth: nat, n: nat, named: bool,
                      below: seq<seq<nat>>)
    requires depth <= DEPTH_LIMIT && listing.Listing? && n < |listing.entries|
    requires var d := listing.entries[n];
      && named == (d.name != ".DS_Store" && Hits(query, d.name))
      && (d.name != ".DS_Store" && Entered(d) ==>
            AllListed(query.join(path, d.name), d.listing, query, depth + 1, below))
    ensures Complete(path, listing, query, depth, (if named then [[n]] else []) + Below(n, below), n, n + 1)
  {
    var d := listing.entries[n];
    var trails := (if named then [[n]] else []) + Below(n, below);
    forall trail, f | IsHit(path, listing, query, depth, trail, f) && n <= trail[0] < n + 1
      ensures trail in trails
    {
      if |trail| == 1 {
        assert trail == [n];
        HitHere(path, listing, query, depth, n, f);
        assert trails[0] == [n];
      } else {
        var rest := trail[1..];
        assert trail == [n] + rest;
        HitBelow(path, listing, query, depth, n, rest, f);
        var i :| 0 <= i < |below| && below[i] == rest;
        assert Below(n, below)[i] == trail;
      }
    }
  }

  /** Every hit is listed. */
  ghost predicate AllListed(path: string, listing: Listing, query: Query, depth: nat, trails: seq<seq<nat>>) {
    forall trail, f :: IsHit(path, listing, query, depth, trail, f) ==> trail in trails
  }

  lemma {:induction false} RestTrails(path: string, listing: Listing, query: Query, depth: nat, n: nat)
    returns (trails: seq<seq<nat>>)
    requires depth <= DEPTH_LIMIT && listing.Listing? && n <= |listing.entries|
    ensures InOrder(trails) && Starts(trails, n, |listing.entries|)
    ensures Lists(path, listing, query, depth, trails, Rest(path, listing.entries, query, depth, n))
    ensures Complete(path, listing, query, depth, trails, n, |listing.entries|)
    decreases listing, 1 + |listing.entries| - n
  {
    if n == |listing.entries| {
      trails := [];
      RestEnds(path, listing.entries, query, depth);
    } else {
      var first := EntryTrails(path, listing, query, depth, n);
      var later := RestTrails(path, listing, query, depth, n + 1);
      trails := first + later;
      RestStep(path, listing.entries, query, depth, n);
      JoinInOrder(first, later, n, |listing.entries|);
    }
  }

  /** The walk lists each hit once, in depth-first order: the trails to its entries, one by one, increase
      strictly, and they are all the trails that lead to a matching name. */
  lemma {:induction false} WalkInOrder(path: string, listing: Listing, query: Query, depth: nat)
    returns (trails: seq<seq<nat>>)
    ensures Lists(path, listing, query, depth, trails, Walk(path, listing, query, depth))
    ensures InOrder(trails) && forall i :: 0 <= i < |trails| ==> trails[i] != []
    ensures AllListed(path, listing, query, depth, trails)
    decreases listing, 2 + if listing.Listing? then |listing.entries| else 0
  {
    if depth > DEPTH_LIMIT || listing.Unreadable? {
      trails := [];
    } else {
      RestEnds(path, listing.entries, query, depth);
      trails := RestTrails(path, listing, query, depth, 0);
    }
  }

  /** So each trail occurs once. */
  lemma OnceEach(trails: seq<seq<nat>>, i: nat, j: nat)
    requires InOrder(trails) && i < j < |trails|
    ensures trails[i] != trails[j]
  {
    PrecedesOnce(trails[i]);
  }

  lemma Regroup(a: seq<Found>, b: seq<Found>, c: seq<Found>)
    ensures a + b + c == a + (b + c)
  {
  }

  function FromRoot(root: Root, query: Query): seq<Found> {
    if root.path == "" then [] else Walk(root.path, root.listing, query, 0)
  }

  lemma LastRoot(roots: seq<Root>, last: Root, query: Query)
    ensures WalkAll(roots + [last], query) == WalkAll(roots, query) + FromRoot(last, query)
    ensures WalkAll([last], query) == FromRoot(last, query)
  {
    assert [last][..0] == [];
    assert (roots + [last])[..|roots|] == roots;
  }

  /** Roots are walked one after the other. */
  lemma {:induction false} RootsInOrder(a: seq<Root>, b: seq<Root>, query: Query)
    ensures WalkAll(a + b, query) == WalkAll(a, query) + WalkAll(b, query)
    decreases |b|
  {
    if b == [] {
      assert a + b == a;
    } else {
      var k := |b| - 1;
      var last := b[k];
      RootsInOrder(a, b[..k], query);
      LastRoot(a + b[..k], last, query);
      LastRoot(b[..k], last, query);
      assert a + b == a + b[..k] + [last] && b == b[..k] + [last];
      Regroup(WalkAll(a, query), WalkAll(b[..k], query), FromRoot(last, query));
    }
  }
}
