/** What a configuration should come to, and what applying overrides one after the other gives. */
module OverrideTree {
  import opened Wrappers
  import opened Toml
  import opened Overrides

  // ----- what a configuration should come to -----

  function Below(key: string, os: seq<Override>): (r: seq<Override>)
    ensures |r| == |os|
    ensures forall i :: 0 <= i < |os| ==> r[i] == Override([key] + os[i].path, os[i].value)
  {
    seq(|os|, i requires 0 <= i < |os| => Override([key] + os[i].path, os[i].value))
  }

  /** The values at the ends of the paths through tables: what is no table, and empty tables. */
  function Wanted(v: Value): seq<Override>
    decreases v, 1
  {
    if v.Table? && v.entries != [] then WantedOf(v.entries) else [Override([], ToTree(Clean(v)))]
  }

  function WantedOf(entries: seq<Entry>): seq<Override>
    decreases entries, 0
  {
    if entries == [] then []
    else if entries[0].value.Undefined? then WantedOf(entries[1..])
    else Below(entries[0].key, Wanted(entries[0].value)) + WantedOf(entries[1..])
  }

  /** A table whose children are all undefined or themselves hollow; an empty table is not. */
  predicate Hollow(v: Value) {
    && v.Table? && v.entries != []
    && forall i :: 0 <= i < |v.entries| ==> v.entries[i].value.Undefined? || Hollow(v.entries[i].value)
  }

  /** No table below is hollow. */
  predicate Full(v: Value) {
    v.Table? ==> forall i :: 0 <= i < |v.entries| && !v.entries[i].value.Undefined? ==>
      !Hollow(v.entries[i].value) && Full(v.entries[i].value)
  }

  /** The value without its undefined children and without hollow tables. */
  function Pruned(v: Value): Value
    decreases v, 1
  {
    if v.Table? then Table(PrunedEntries(v.entries)) else Clean(v)
  }

  function PrunedEntries(entries: seq<Entry>): seq<Entry>
    decreases entries, 0
  {
    if entries == [] then []
    else if entries[0].value.Undefined? || Hollow(entries[0].value) then PrunedEntries(entries[1..])
    else [Entry(entries[0].key, Pruned(entries[0].value))] + PrunedEntries(entries[1..])
  }

  predicate Descends(o: Override, e: Entry) {
    && !e.value.Undefined? && o.path != [] && o.path[0] == e.key
    && Override(o.path[1..], o.value) in Wanted(e.value)
  }

  /** What a table wants is what its children want, one key further down. */
  lemma {:induction false} WantedMember(entries: seq<Entry>, o: Override)
    ensures o in WantedOf(entries) <==> exists i :: 0 <= i < |entries| && Descends(o, entries[i])
  {
    if entries != [] {
      var e := entries[0];
      WantedMember(entries[1..], o);
      assert forall i :: 1 <= i < |entries| ==> entries[1..][i - 1] == entries[i];
      if !e.value.Undefined? {
        var first := Below(e.key, Wanted(e.value));
        if o in first {
          var i :| 0 <= i < |first| && first[i] == o;
          assert o.path[1..] == Wanted(e.value)[i].path;
          assert Descends(o, e);
        }
        if Descends(o, e) {
          var i :| 0 <= i < |first| && Wanted(e.value)[i] == Override(o.path[1..], o.value);
          assert [e.key] + o.path[1..] == o.path;
          assert first[i] == o;
        }
      }
    }
  }

  lemma {:induction false} HollowWantsNothing(v: Value)
    ensures Hollow(v) <==> Wanted(v) == []
  {
    if v.Table? && v.entries != [] {
      HollowEntries(v.entries);
    }
  }

  lemma {:induction false} HollowEntries(entries: seq<Entry>)
    ensures WantedOf(entries) == [] <==>
      forall i :: 0 <= i < |entries| ==> entries[i].value.Undefined? || Hollow(entries[i].value)
  {
    if entries != [] {
      HollowEntries(entries[1..]);
      assert forall i :: 1 <= i < |entries| ==> entries[1..][i - 1] == entries[i];
      HollowWantsNothing(entries[0].value);
    }
  }

  // ----- the paths wanted are apart -----

  predicate Across(o: Override, p: Override) {
    !(o.path <= p.path) && !(p.path <= o.path)
  }

  /** No path is a prefix of another. */
  predicate Spread(os: seq<Override>) {
    forall i, j :: 0 <= i < j < |os| ==> Across(os[i], os[j])
  }

  lemma {:induction false} WantedSpread(v: Value)
    requires ProperTables(v)
    ensures Spread(Wanted(v))
  {
    if v.Table? && v.entries != [] {
      WantedSpreadOf(v.entries);
    }
  }

  lemma {:induction false} WantedSpreadOf(entries: seq<Entry>)
    requires DistinctKeys(entries) && forall i :: 0 <= i < |entries| ==> ProperTables(entries[i].value)
    ensures Spread(WantedOf(entries))
  {
    if entries != [] {
      var e := entries[0];
      WantedSpreadOf(entries[1..]);
      WantedSpread(e.value);
      var first, rest := Below(e.key, Wanted(e.value)), WantedOf(entries[1..]);
      BelowSpread(e.key, Wanted(e.value));
      forall j | 0 <= j < |rest|
        ensures rest[j].path != [] && rest[j].path[0] != e.key
      {
        WantedMember(entries[1..], rest[j]);
      }
    }
  }

  lemma BelowSpread(key: string, os: seq<Override>)
    requires Spread(os)
    ensures Spread(Below(key, os))
  {
    var r := Below(key, os);
    forall i, j | 0 <= i < j < |os|
      ensures Across(r[i], r[j])
    {
      assert Across(os[i], os[j]);
      assert r[i].path[1..] == os[i].path && r[j].path[1..] == os[j].path;
    }
  }

  // ----- what a tree shows at a path -----

  datatype Probe = Absent | IsTable | IsScalar(value: Value)

  function Look(t: Tree, path: seq<string>): Probe
    decreases |path|
  {
    if path == [] then (if t.Scalar? then IsScalar(t.value) else IsTable)
    else if t.Branch? && path[0] in t.children then Look(t.children[path[0]], path[1..])
    else Absent
  }

  /** A tree is determined by what it shows. */
  lemma {:induction false} SameLook(t: Tree, u: Tree)
    requires forall path :: Look(t, path) == Look(u, path)
    ensures t == u
  {
    assert Look(t, []) == Look(u, []);
    if t.Branch? {
      forall k
        ensures k in t.children <==> k in u.children
        ensures k in t.children && k in u.children ==> t.children[k] == u.children[k]
      {
        assert Look(t, [k]) == Look(u, [k]);
        assert [k][1..] == [];
        if k in t.children && k in u.children {
          forall path
            ensures Look(t.children[k], path) == Look(u.children[k], path)
          {
            assert Look(t, [k] + path) == Look(u, [k] + path);
            assert ([k] + path)[1..] == path;
          }
          SameLook(t.children[k], u.children[k]);
        }
      }
      assert t.children == u.children;
    }
  }

  /** `t` holds exactly the overrides `os`: each value at its path, tables above them, nothing else. */
  ghost predicate Holds(t: Tree, os: seq<Override>) {
    && (forall o :: o in os ==> Look(t, o.path) == Look(o.value, []))
    && (forall path :: Look(t, path) != Absent <==> path == [] || exists o :: o in os && path <= o.path)
    && (forall path :: Look(t, path).IsScalar? ==> exists o :: o in os && o.path == path)
  }

  lemma HoldsUnique(t: Tree, u: Tree, os: seq<Override>, ps: seq<Override>)
    requires Holds(t, os) && Holds(u, ps)
    requires forall o :: o in os <==> o in ps
    ensures t == u
  {
    forall path
      ensures Look(t, path) == Look(u, path)
    {
      if Look(t, path).IsScalar? || Look(u, path).IsScalar? {
        var o :| o in os && o.path == path;
      }
    }
    SameLook(t, u);
  }

  // ----- applying one override -----

  /** The subtree at a path. */
  function Sub(t: Tree, path: seq<string>): Option<Tree>
    decreases |path|
  {
    if path == [] then Some(t)
    else if t.Branch? && path[0] in t.children then Sub(t.children[path[0]], path[1..])
    else None
  }

  lemma {:induction false} SubLook(t: Tree, path: seq<string>)
    ensures Look(t, path) == if Sub(t, path).Some? then Look(Sub(t, path).value, []) else Absent
    decreases |path|
  {
    if path != [] && t.Branch? && path[0] in t.children {
      SubLook(t.children[path[0]], path[1..]);
    }
  }

  lemma OneStep(t: Tree, key: string)
    ensures Sub(t, [key]) == if t.Branch? && key in t.children then Some(t.children[key]) else None
    ensures Look(t, [key]) == if t.Branch? && key in t.children then Look(t.children[key], []) else Absent
  {
    assert [key][1..] == [];
  }

  /** What an override leaves at its path: its value, combined with what a structured feature already has. */
  function Landed(t: Tree, done: seq<string>, path: seq<string>, value: Tree, merge: (Tree, Tree) -> Tree): Tree {
    var there := Sub(t, path);
    if there.Some? && Structured(done + path) then Combine(there.value, value, merge) else value
  }

  /** `q` is the flag of a structured feature that the path leads through, which becomes a table. */
  predicate Promoted(t: Tree, done: seq<string>, path: seq<string>, q: seq<string>) {
    && 1 < |q| && q[|q| - 1] == "enabled"
    && var feature := q[..|q| - 1];
       && feature < path && Structured(done + feature)
       && Sub(t, feature).Some? && IsBool(Sub(t, feature).value)
  }

  /** What is shown at `q` after an override of `path`. */
  function Shown(t: Tree, done: seq<string>, path: seq<string>, value: Tree, merge: (Tree, Tree) -> Tree,
                 q: seq<string>): Probe
  {
    if path <= q then Look(Landed(t, done, path, value, merge), q[|path|..])
    else if q <= path then IsTable
    else if Promoted(t, done, path, q) then Look(t, q[..|q| - 1])
    else Look(t, q)
  }

  /** The child through which an override of a longer path goes. */
  function Through(t: Tree, done: seq<string>, key: string): Tree {
    var children := if t.Branch? then t.children else map[];
    if key !in children then EMPTY
    else if Structured(done + [key]) && IsBool(children[key]) then Branch(map["enabled" := children[key]])
    else children[key]
  }

  /** A feature that was a flag is now a table with that flag, so nothing else shows below it. */
  lemma FlagBelow(flag: Tree, path: seq<string>)
    requires path != [] && flag.Scalar?
    ensures var table := Branch(map["enabled" := flag]);
      Sub(table, path) == if path == ["enabled"] then Some(flag) else None
  {
    if path[0] == "enabled" {
      assert path == ["enabled"] <==> path[1..] == [];
    }
  }

  lemma LandedBelow(t: Tree, done: seq<string>, path: seq<string>, value: Tree, merge: (Tree, Tree) -> Tree)
    requires |path| > 1
    ensures Landed(Through(t, done, path[0]), done + [path[0]], path[1..], value, merge)
            == Landed(t, done, path, value, merge)
  {
    assert done + [path[0]] + path[1..] == done + path;
    var child := Through(t, done, path[0]);
    if t.Branch? && path[0] in t.children && child != t.children[path[0]] {
      FlagBelow(t.children[path[0]], path[1..]);
    }
  }

  lemma PromotedBelow(t: Tree, done: seq<string>, path: seq<string>, q: seq<string>)
    requires |path| > 1 && |q| > 2 && q[0] == path[0]
    ensures Promoted(Through(t, done, path[0]), done + [path[0]], path[1..], q[1..]) <==> Promoted(t, done, path, q)
  {
    var feature := q[..|q| - 1];
    var below := feature[1..];
    assert q[1..][..|q| - 2] == below;
    assert done + [path[0]] + below == done + feature;
    assert feature < path <==> below < path[1..];
    var child := Through(t, done, path[0]);
    if t.Branch? && path[0] in t.children && child != t.children[path[0]] {
      FlagBelow(t.children[path[0]], below);
    }
  }

  /** Beside the path, the child shows what the tree shows, and the flag it was made from. */
  lemma BesideBelow(t: Tree, done: seq<string>, path: seq<string>, q: seq<string>)
    requires |path| > 1 && |q| > 1 && q[0] == path[0] && !Promoted(t, done, path, q)
    requires |q| == 2 ==> q[1] != path[1]
    ensures Look(Through(t, done, path[0]), q[1..]) == Look(t, q)
  {
    var child := Through(t, done, path[0]);
    if t.Branch? && path[0] in t.children && child != t.children[path[0]] {
      FlagBelow(t.children[path[0]], q[1..]);
      SubLook(child, q[1..]);
      if q[1..] == ["enabled"] {
        assert q[..1] == [path[0]] && q[..1][1..] == [];
        assert Promoted(t, done, path, q);
      }
    }
  }

  lemma PromotedHere(t: Tree, done: seq<string>, path: seq<string>, q: seq<string>)
    requires |path| > 1 && |q| == 2 && Promoted(t, done, path, q)
    ensures Look(Through(t, done, path[0]), q[1..]) == Look(t, q[..1])
  {
    assert q[..1] == [path[0]];
    OneStep(t, path[0]);
    OneStep(Through(t, done, path[0]), "enabled");
    assert q[1..] == ["enabled"];
  }

  lemma ShownBelow(t: Tree, done: seq<string>, path: seq<string>, value: Tree, merge: (Tree, Tree) -> Tree,
                   q: seq<string>)
    requires |path| > 1 && q != [] && q[0] == path[0]
    ensures Shown(Through(t, done, path[0]), done + [path[0]], path[1..], value, merge, q[1..])
         == Shown(t, done, path, value, merge, q)
  {
    assert path <= q <==> path[1..] <= q[1..];
    assert q <= path <==> q[1..] <= path[1..];
    if path <= q {
      LandedBelow(t, done, path, value, merge);
      assert q[|path|..] == q[1..][|path[1..]|..];
    } else if !(q <= path) {
      if |q| > 2 {
        PromotedBelow(t, done, path, q);
      }
      if !Promoted(t, done, path, q) {
        BesideBelow(t, done, path, q);
      } else if |q| == 2 {
        PromotedHere(t, done, path, q);
      } else {
        PromotedLook(t, done, path, q);
      }
    }
  }

  lemma PromotedLook(t: Tree, done: seq<string>, path: seq<string>, q: seq<string>)
    requires |path| > 1 && |q| > 2 && q[0] == path[0] && Promoted(t, done, path, q)
    ensures Look(Through(t, done, path[0]), q[1..][..|q| - 2]) == Look(t, q[..|q| - 1])
  {
    var feature := q[..|q| - 1];
    assert q[1..][..|q| - 2] == feature[1..];
    SubLook(t, feature);
  }

  /** An override changes what is at its path and below it, makes tables of what is above it, turns a flag
      of a structured feature above it into a table with that flag, and changes nothing else. */
  lemma {:induction false} ApplyLook(t: Tree, done: seq<string>, path: seq<string>, value: Tree,
                                     merge: (Tree, Tree) -> Tree, q: seq<string>)
    requires path != []
    ensures Look(Apply(t, done, path, value, merge), q) == Shown(t, done, path, value, merge, q)
    decreases |path|
  {
    var here, u := done + [path[0]], Apply(t, done, path, value, merge);
    if q != [] && q[0] != path[0] {
      assert Look(u, q) == Look(t, q);
    } else if q != [] && |path| == 1 {
      ApplyLast(t, done, path, value, merge, q);
    } else if q != [] {
      var child := Through(t, done, path[0]);
      assert u.children[path[0]] == Apply(child, here, path[1..], value, merge);
      ApplyLook(child, here, path[1..], value, merge, q[1..]);
      ShownBelow(t, done, path, value, merge, q);
    }
  }

  lemma ApplyLast(t: Tree, done: seq<string>, path: seq<string>, value: Tree, merge: (Tree, Tree) -> Tree,
                  q: seq<string>)
    requires |path| == 1 && q != [] && q[0] == path[0]
    ensures Look(Apply(t, done, path, value, merge), q) == Shown(t, done, path, value, merge, q)
  {
    assert path == [path[0]] && path <= q;
    OneStep(t, path[0]);
    assert Apply(t, done, path, value, merge).children[path[0]] == Landed(t, done, path, value, merge);
  }

  /** A value of an override: a scalar or the empty table. */
  predicate LeafTree(t: Tree) { t.Scalar? || t == EMPTY }

  /** Nothing stands at `path`, and no scalar above it. */
  ghost predicate Free(t: Tree, path: seq<string>) {
    Look(t, path) == Absent && forall k :: 0 <= k < |path| ==> !Look(t, path[..k]).IsScalar?
  }

  /** Where nothing stands, an override changes only what is at its path, above it and below it. */
  lemma ApplyFree(t: Tree, path: seq<string>, value: Tree, merge: (Tree, Tree) -> Tree, q: seq<string>)
    requires path != [] && Free(t, path)
    ensures Look(Apply(t, [], path, value, merge), q)
         == if path <= q then Look(value, q[|path|..]) else if q <= path then IsTable else Look(t, q)
  {
    ApplyLook(t, [], path, value, merge, q);
    SubLook(t, path);
    forall k | 0 <= k < |path|
      ensures Sub(t, path[..k]).Some? ==> !IsBool(Sub(t, path[..k]).value)
    {
      SubLook(t, path[..k]);
    }
    assert 0 < |q| <= |path| && q[..|q| - 1] < path ==> q[..|q| - 1] == path[..|q| - 1];
  }

  // ----- applying all overrides, in any order -----

  /** As `Spread`, but independent of the order. */
  ghost predicate Apart(os: seq<Override>) {
    && (forall o :: multiset(os)[o] <= 1)
    && (forall o, p :: o in os && p in os && o != p ==> Across(o, p))
  }

  lemma {:induction false} SpreadApart(os: seq<Override>)
    requires Spread(os)
    ensures Apart(os)
  {
    if os != [] {
      var n := |os| - 1;
      SpreadApart(os[..n]);
      assert os == os[..n] + [os[n]];
      forall i | 0 <= i < n
        ensures Across(os[..n][i], os[n])
      {
      }
    }
  }

  lemma ApartButLast(os: seq<Override>, o: Override)
    requires Apart(os + [o])
    ensures Apart(os) && forall p :: p in os ==> Across(p, o)
  {
    assert multiset(os + [o]) == multiset(os) + multiset{o};
    assert multiset(os + [o])[o] <= 1;
    forall p
      ensures multiset(os)[p] <= 1
    {
      assert multiset(os + [o])[p] <= 1;
    }
  }

  lemma {:induction false} LayerHolds(os: seq<Override>, merge: (Tree, Tree) -> Tree)
    requires Apart(os)
    requires forall i :: 0 <= i < |os| ==> os[i].path != [] && LeafTree(os[i].value)
    ensures Holds(BuildLayer(os, merge), os)
  {
    if os == [] {
      assert forall path: seq<string> :: path != [] ==> Look(EMPTY, path) == Absent;
    } else {
      var n := |os| - 1;
      var o := os[n];
      assert os == os[..n] + [o];
      ApartButLast(os[..n], o);
      LayerHolds(os[..n], merge);
      HoldsOneMore(BuildLayer(os[..n], merge), os[..n], o, merge);
    }
  }

  lemma HoldsOneMore(t: Tree, os: seq<Override>, o: Override, merge: (Tree, Tree) -> Tree)
    requires Holds(t, os) && o.path != [] && LeafTree(o.value)
    requires forall p :: p in os ==> p.path != [] && Across(p, o)
    ensures Holds(Apply(t, [], o.path, o.value, merge), os + [o])
  {
    assert Look(t, []).IsTable?;
    assert Free(t, o.path);
    var u := Apply(t, [], o.path, o.value, merge);
    forall q
      ensures Look(u, q)
           == if o.path <= q then Look(o.value, q[|o.path|..]) else if q <= o.path then IsTable else Look(t, q)
    {
      ApplyFree(t, o.path, o.value, merge, q);
    }
    forall q
      ensures Look(u, q) != Absent <==> q == [] || exists p :: p in os + [o] && q <= p.path
      ensures Look(u, q).IsScalar? ==> exists p :: p in os + [o] && p.path == q
    {
      HoldsAt(t, os, o, q, Look(u, q));
    }
    assert o.path[|o.path|..] == [];
  }

  /** The case split for one path. */
  lemma HoldsAt(t: Tree, os: seq<Override>, o: Override, q: seq<string>, seen: Probe)
    requires Holds(t, os) && o.path != [] && LeafTree(o.value)
    requires forall p :: p in os ==> p.path != [] && Across(p, o)
    requires seen == if o.path <= q then Look(o.value, q[|o.path|..]) else if q <= o.path then IsTable else Look(t, q)
    ensures seen != Absent <==> q == [] || exists p :: p in os + [o] && q <= p.path
    ensures seen.IsScalar? ==> exists p :: p in os + [o] && p.path == q
  {
    assert forall p :: p in os + [o] <==> p in os || p == o;
    if o.path <= q {
      if q[|o.path|..] == [] {
        assert q == o.path;
      } else {
        forall p | p in os
          ensures !(q <= p.path)
        {
          assert Across(p, o);
        }
      }
    }
  }

  // ----- the tree of the pruned configuration holds what is wanted -----

  /** Looking below a table goes through the child with that key. */
  lemma {:induction false} ChildAt(entries: seq<Entry>, k: string)
    requires DistinctKeys(entries)
    ensures forall i :: 0 <= i < |entries| && entries[i].key == k ==>
      var kept := !entries[i].value.Undefined? && !Hollow(entries[i].value);
      var c := Children(PrunedEntries(entries));
      (k in c <==> kept) && (kept ==> c[k] == ToTree(Pruned(entries[i].value)))
    ensures !KeyIn(k, entries) ==> k !in Children(PrunedEntries(entries))
  {
    if entries != [] {
      ChildAt(entries[1..], k);
      assert forall i :: 1 <= i < |entries| ==> entries[1..][i - 1] == entries[i];
      assert entries[0].key == k ==> !KeyIn(k, entries[1..]);
      var e := entries[0];
      if !e.value.Undefined? && !Hollow(e.value) {
        assert PrunedEntries(entries)[1..] == PrunedEntries(entries[1..]);
      }
    }
  }

  lemma {:induction false} TreeHolds(v: Value)
    requires ProperTables(v)
    ensures Holds(ToTree(Pruned(v)), Wanted(v))
    decreases v, 0
  {
    var t, os := ToTree(Pruned(v)), Wanted(v);
    if v.Table? && v.entries != [] {
      forall o | o in os
        ensures Look(t, o.path) == Look(o.value, [])
      {
        WantedMember(v.entries, o);
        var i :| 0 <= i < |v.entries| && Descends(o, v.entries[i]);
        HollowWantsNothing(v.entries[i].value);
        ChildAt(v.entries, o.path[0]);
        TreeHolds(v.entries[i].value);
      }
      forall q
        ensures Look(t, q) != Absent <==> q == [] || exists o :: o in os && q <= o.path
        ensures Look(t, q).IsScalar? ==> exists o :: o in os && o.path == q
      {
        if q != [] {
          TableHoldsAt(v.entries, q);
        }
      }
    } else {
      assert Pruned(v) == Clean(v);
      assert forall q: seq<string> :: q != [] ==> Look(t, q) == Absent;
    }
  }

  lemma {:induction false} TableHoldsAt(entries: seq<Entry>, q: seq<string>)
    requires q != [] && ProperTables(Table(entries))
    ensures var t := ToTree(Pruned(Table(entries)));
      && (Look(t, q) != Absent <==> exists o :: o in WantedOf(entries) && q <= o.path)
      && (Look(t, q).IsScalar? ==> exists o :: o in WantedOf(entries) && o.path == q)
    decreases entries, 1
  {
    var t := ToTree(Pruned(Table(entries)));
    if Look(t, q) != Absent {
      var o := ShownIsWanted(entries, q);
    }
    if o :| o in WantedOf(entries) && q <= o.path {
      WantedMember(entries, o);
      var i :| 0 <= i < |entries| && Descends(o, entries[i]);
      HollowWantsNothing(entries[i].value);
      ChildAt(entries, q[0]);
      TreeHolds(entries[i].value);
      assert q[1..] <= o.path[1..];
    }
  }

  /** What a table shows below a key is what the child with that key shows. */
  lemma LookThrough(entries: seq<Entry>, q: seq<string>) returns (i: nat)
    requires q != [] && DistinctKeys(entries) && Look(ToTree(Pruned(Table(entries))), q) != Absent
    ensures i < |entries| && entries[i].key == q[0] && !entries[i].value.Undefined? && !Hollow(entries[i].value)
    ensures Look(ToTree(Pruned(Table(entries))), q) == Look(ToTree(Pruned(entries[i].value)), q[1..])
  {
    ChildAt(entries, q[0]);
    assert KeyIn(q[0], entries);
    i :| 0 <= i < |entries| && entries[i].key == q[0];
  }

  lemma DescendsTo(entries: seq<Entry>, i: nat, key: string, below: Override) returns (o: Override)
    requires i < |entries| && entries[i].key == key && !entries[i].value.Undefined? && below in Wanted(entries[i].value)
    ensures o == Override([key] + below.path, below.value) && o in WantedOf(entries)
  {
    o := Override([key] + below.path, below.value);
    assert o.path[1..] == below.path;
    assert Descends(o, entries[i]);
    WantedMember(entries, o);
  }

  lemma {:induction false} ShownIsWanted(entries: seq<Entry>, q: seq<string>) returns (o: Override)
    requires q != [] && ProperTables(Table(entries))
    requires Look(ToTree(Pruned(Table(entries))), q) != Absent
    ensures o in WantedOf(entries) && q <= o.path
    ensures Look(ToTree(Pruned(Table(entries))), q).IsScalar? ==> o.path == q
    decreases entries, 0
  {
    var i := LookThrough(entries, q);
    var below := HeldIn(entries[i].value, q[1..]);
    o := DescendsTo(entries, i, q[0], below);
    assert q == [q[0]] + q[1..];
  }

  lemma {:induction false} HeldIn(v: Value, q: seq<string>) returns (o: Override)
    requires ProperTables(v) && !Hollow(v) && Look(ToTree(Pruned(v)), q) != Absent
    ensures o in Wanted(v) && q <= o.path && (Look(ToTree(Pruned(v)), q).IsScalar? ==> o.path == q)
    decreases v, 1
  {
    TreeHolds(v);
    HollowWantsNothing(v);
    o := HeldBelow(ToTree(Pruned(v)), Wanted(v), q);
  }

  lemma HeldBelow(t: Tree, os: seq<Override>, q: seq<string>) returns (o: Override)
    requires Holds(t, os) && os != [] && Look(t, q) != Absent
    ensures o in os && q <= o.path && (Look(t, q).IsScalar? ==> o.path == q)
  {
    if Look(t, q).IsScalar? {
      o :| o in os && o.path == q;
    } else if q == [] {
      o := os[0];
    } else {
      o :| o in os && q <= o.path;
    }
  }
}
