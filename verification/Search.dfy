/** Searching directories by name, with a limit on the results that all roots share. */
module Search {
  import Provider

  const RESULT_LIMIT := 200
  const DEPTH_LIMIT := 12
  const SKIPPED := {".git", ".hg", ".svn", "node_modules", "target", "dist", "build", ".venv", "__pycache__"}

  /** What reading a directory gives. */
  datatype Listing = Unreadable | Listing(entries: seq<Dirent>)

  datatype Dirent = Plain(name: string) | Directory(name: string, listing: Listing)

  datatype Found = Found(name: string, path: string, isDirectory: bool)

  /** How paths are joined and names are put into lower case, and what names must contain. */
  datatype Query = Query(join: (string, string) -> string, lower: string -> string, needle: string)

  predicate Includes(s: string, part: string) {
    exists i :: 0 <= i <= |s| && part <= s[i..]
  }

  predicate Hits(query: Query, name: string) { Includes(query.lower(name), query.needle) }

  predicate Entered(d: Dirent) { d.Directory? && d.name !in SKIPPED }

  // ----- the unlimited walk -----

  function Walk(path: string, listing: Listing, query: Query, depth: nat): seq<Found>
    decreases listing, 1
  {
    if depth > DEPTH_LIMIT || listing.Unreadable? then [] else WalkEntries(path, listing.entries, query, depth)
  }

  function WalkEntries(path: string, entries: seq<Dirent>, query: Query, depth: nat): seq<Found>
    decreases entries, 0
  {
    if entries == [] then []
    else WalkEntry(path, entries[0], query, depth) + WalkEntries(path, entries[1..], query, depth)
  }

  function WalkEntry(path: string, d: Dirent, query: Query, depth: nat): seq<Found>
    decreases d, 2
  {
    if d.name == ".DS_Store" then []
    else
      var at := query.join(path, d.name);
      (if Hits(query, d.name) then [Found(d.name, at, d.Directory?)] else [])
      + (if Entered(d) then Walk(at, d.listing, query, depth + 1) else [])
  }

  function Capped(found: seq<Found>): (r: seq<Found>)
    ensures |r| <= RESULT_LIMIT && r <= found
  {
    if |found| <= RESULT_LIMIT then found else found[..RESULT_LIMIT]
  }

  lemma CapTwice(a: seq<Found>, b: seq<Found>)
    ensures Capped(Capped(a) + b) == Capped(a + b)
  {
    if |a| > RESULT_LIMIT {
      assert Capped(a) + b == a[..RESULT_LIMIT] + b;
    }
  }

  lemma CapFull(a: seq<Found>, b: seq<Found>)
    requires |a| >= RESULT_LIMIT
    ensures Capped(a + b) == Capped(a)
  {
    if |a + b| > RESULT_LIMIT {
      assert (a + b)[..RESULT_LIMIT] == a[..RESULT_LIMIT];
    }
  }

  // ----- the search -----

  /** The list that all roots add to. */
  class Results {
    var items: seq<Found>

    constructor ()
      ensures items == []
    {
      items := [];
    }
  }

  /** What is left of a directory from its `n`th entry on. */
  ghost function Rest(path: string, entries: seq<Dirent>, query: Query, depth: nat, n: nat): seq<Found>
    requires n <= |entries|
  {
    WalkEntries(path, entries[n..], query, depth)
  }

  lemma RestStep(path: string, entries: seq<Dirent>, query: Query, depth: nat, n: nat)
    requires n < |entries|
    ensures Rest(path, entries, query, depth, n)
            == WalkEntry(path, entries[n], query, depth) + Rest(path, entries, query, depth, n + 1)
  {
    assert entries[n..][0] == entries[n] && entries[n..][1..] == entries[n + 1..];
  }

  lemma RestEnds(path: string, entries: seq<Dirent>, query: Query, depth: nat)
    ensures Rest(path, entries, query, depth, |entries|) == []
    ensures Rest(path, entries, query, depth, 0) == WalkEntries(path, entries, query, depth)
  {
    assert entries[|entries|..] == [] && entries[0..] == entries;
  }

  /** Where a search stands: of the `whole` walk, `walked` is done and `rest` is left. */
  predicate Standing(items: seq<Found>, start: seq<Found>, walked: seq<Found>, rest: seq<Found>, whole: seq<Found>) {
    items == Capped(start + walked) && walked + rest == whole
  }

  lemma StandingStep(items: seq<Found>, start: seq<Found>, walked: seq<Found>, more: seq<Found>, rest: seq<Found>,
                     whole: seq<Found>)
    requires Standing(items, start, walked, more + rest, whole)
    ensures Standing(Capped(items + more), start, walked + more, rest, whole)
  {
    CapTwice(start + walked, more);
    assert start + walked + more == start + (walked + more) && walked + (more + rest) == walked + more + rest;
  }

  lemma StandingDone(items: seq<Found>, start: seq<Found>, walked: seq<Found>, rest: seq<Found>, whole: seq<Found>)
    requires Standing(items, start, walked, rest, whole) && (rest == [] || |items| >= RESULT_LIMIT)
    ensures items == Capped(start + whole)
  {
    if rest == [] {
      assert walked + [] == walked;
    } else {
      CapFull(start + walked, rest);
      assert start + walked + rest == start + (walked + rest);
    }
  }

  /** Add what is found below a directory, up to the limit. */
  method SearchDirectory(path: string, listing: Listing, query: Query, results: Results, depth: nat)
    requires |results.items| <= RESULT_LIMIT
    modifies results
    ensures results.items == Capped(old(results.items) + Walk(path, listing, query, depth))
    decreases listing, 1
  {
    ghost var start := results.items;
    ghost var whole := Walk(path, listing, query, depth);
    CapStart(start, whole);
    if depth > DEPTH_LIMIT || |results.items| >= RESULT_LIMIT {
      return;
    }
    if listing.Unreadable? {
      return;
    }
    ghost var walked: seq<Found> := [];
    RestEnds(path, listing.entries, query, depth);
    assert walked + whole == whole;
    for n := 0 to |listing.entries|
      invariant Standing(results.items, start, walked, Rest(path, listing.entries, query, depth, n), whole)
    {
      if |results.items| >= RESULT_LIMIT {
        StandingDone(results.items, start, walked, Rest(path, listing.entries, query, depth, n), whole);
        return;
      }
      ghost var more := WalkEntry(path, listing.entries[n], query, depth);
      RestStep(path, listing.entries, query, depth, n);
      StandingStep(results.items, start, walked, more, Rest(path, listing.entries, query, depth, n + 1), whole);
      SearchEntry(path, listing.entries[n], query, results, depth);
      walked := walked + more;
    }
    StandingDone(results.items, start, walked, [], whole);
  }

  /** One entry of a directory: its name, and what is below it. */
  method SearchEntry(path: string, d: Dirent, query: Query, results: Results, depth: nat)
    requires |results.items| < RESULT_LIMIT
    modifies results
    ensures results.items == Capped(old(results.items) + WalkEntry(path, d, query, depth))
    decreases d, 0
  {
    ghost var start := results.items;
    CapStart(start, []);
    if d.name == ".DS_Store" {
      return;
    }
    var at := query.join(path, d.name);
    ghost var named := if Hits(query, d.name) then [Found(d.name, at, d.Directory?)] else [];
    ghost var below := if Entered(d) then Walk(at, d.listing, query, depth + 1) else [];
    NameFirst(start, named, below);
    if Hits(query, d.name) {
      results.items := results.items + [Found(d.name, at, d.Directory?)];
    }
    if d.Directory? && d.name !in SKIPPED {
      SearchDirectory(at, d.listing, query, results, depth + 1);
    }
  }

  lemma NameFirst(start: seq<Found>, named: seq<Found>, below: seq<Found>)
    requires |start| < RESULT_LIMIT && |named| <= 1
    ensures named == [] ==> start + named == start
    ensures Capped(start + named + below) == Capped(start + (named + below))
    ensures below == [] ==> Capped(start + (named + below)) == start + named
  {
    assert start + named + below == start + (named + below);
  }

  lemma CapStart(start: seq<Found>, more: seq<Found>)
    requires |start| <= RESULT_LIMIT
    ensures Capped(start + []) == start
    ensures |start| == RESULT_LIMIT || more == [] ==> Capped(start + more) == start
  {
    assert start + [] == start;
    if |start| == RESULT_LIMIT {
      CapFull(start, more);
    }
  }

  // ----- all roots -----

  datatype Root = Root(path: string, listing: Listing)

  /** The unlimited walk over all roots; a root without a path is passed over. */
  function WalkAll(roots: seq<Root>, query: Query): seq<Found> {
    if roots == [] then []
    else
      var last := roots[|roots| - 1];
      WalkAll(roots[..|roots| - 1], query) + if last.path == "" then [] else Walk(last.path, last.listing, query, 0)
  }

  /** Search several roots for names that contain a text in either case. */
  method SearchRoots(roots: seq<Root>, text: string, join: (string, string) -> string, lower: string -> string)
    returns (found: seq<Found>)
    ensures var query := Query(join, lower, lower(Provider.Trim(text)));
      found == if query.needle == "" then [] else Capped(WalkAll(roots, query))
  {
    var query := Query(join, lower, lower(Provider.Trim(text)));
    if query.needle == "" {
      return [];
    }
    var results := new Results();
    for n := 0 to |roots|
      invariant results.items == Capped(WalkAll(roots[..n], query))
    {
      assert roots[..n + 1][..n] == roots[..n];
      CapTwice(WalkAll(roots[..n], query), Walk(roots[n].path, roots[n].listing, query, 0));
      assert WalkAll(roots[..n], query) + [] == WalkAll(roots[..n], query);
      if roots[n].path == "" {
        continue;
      }
      SearchDirectory(roots[n].path, roots[n].listing, query, results, 0);
    }
    assert roots[..|roots|] == roots;
    return results.items;
  }

  // ----- what the walk finds -----

  /** A trail of positions leads through directories that are entered to an entry within the depth limit. */
  predicate Leads(listing: Listing, trail: seq<nat>, depth: nat)
    decreases |trail|
  {
    && trail != [] && depth <= DEPTH_LIMIT && listing.Listing? && trail[0] < |listing.entries|
    && var d := listing.entries[trail[0]];
       && d.name != ".DS_Store"
       && (|trail| == 1 || (d.Directory? && d.name !in SKIPPED && Leads(d.listing, trail[1..], depth + 1)))
  }

  function EntryAt(path: string, listing: Listing, trail: seq<nat>, query: Query, depth: nat): Found
    requires Leads(listing, trail, depth)
    decreases |trail|
  {
    var d := listing.entries[trail[0]];
    var at := query.join(path, d.name);
    if |trail| == 1 then Found(d.name, at, d.Directory?) else EntryAt(at, d.listing, trail[1..], query, depth + 1)
  }

  predicate IsHit(path: string, listing: Listing, query: Query, depth: nat, trail: seq<nat>, f: Found) {
    Leads(listing, trail, depth) && EntryAt(path, listing, trail, query, depth) == f && Hits(query, f.name)
  }

  lemma {:induction false} EntriesMember(path: string, entries: seq<Dirent>, query: Query, depth: nat, f: Found)
    ensures f in WalkEntries(path, entries, query, depth)
       <==> exists i :: 0 <= i < |entries| && f in WalkEntry(path, entries[i], query, depth)
  {
    if entries != [] {
      EntriesMember(path, entries[1..], query, depth, f);
      assert forall i :: 1 <= i < |entries| ==> entries[1..][i - 1] == entries[i];
    }
  }

  /** The walk finds exactly the entries with a matching name that some trail leads to. */
  lemma {:induction false} WalkMember(path: string, listing: Listing, query: Query, depth: nat, f: Found)
    ensures f in Walk(path, listing, query, depth) <==> exists trail :: IsHit(path, listing, query, depth, trail, f)
    decreases listing
  {
    if f in Walk(path, listing, query, depth) {
      EntriesMember(path, listing.entries, query, depth, f);
      var i :| 0 <= i < |listing.entries| && f in WalkEntry(path, listing.entries[i], query, depth);
      var d := listing.entries[i];
      var at := query.join(path, d.name);
      if Hits(query, d.name) && f == Found(d.name, at, d.Directory?) {
        assert IsHit(path, listing, query, depth, [i], f);
      } else {
        WalkMember(at, d.listing, query, depth + 1, f);
        var below :| IsHit(at, d.listing, query, depth + 1, below, f);
        assert ([i] + below)[1..] == below;
        assert IsHit(path, listing, query, depth, [i] + below, f);
      }
    }
    if trail :| IsHit(path, listing, query, depth, trail, f) {
      var d := listing.entries[trail[0]];
      if |trail| > 1 {
        assert IsHit(query.join(path, d.name), d.listing, query, depth + 1, trail[1..], f);
        WalkMember(query.join(path, d.name), d.listing, query, depth + 1, f);
      }
      assert f in WalkEntry(path, d, query, depth);
      EntriesMember(path, listing.entries, query, depth, f);
    }
  }
}
