/** Where the parts of a configuration layer come from: each stands on the path of an override, or inside
    the value of one. */
module OverrideTraces {
  import opened Wrappers
  import opened Overrides
  import opened OverrideTree

  // ----- where the parts of a layer come from -----

  /** A leaf stands at `q`: a scalar or an empty table. */
  ghost predicate LeafAt(t: Tree, q: seq<string>) {
    || Look(t, q).IsScalar?
    || (Look(t, q).IsTable? && forall key :: Look(t, q + [key]) == Absent)
  }

  predicate Leads(os: seq<Override>, q: seq<string>) {
    exists i :: 0 <= i < |os| && q <= os[i].path
  }

  predicate Given(os: seq<Override>, q: seq<string>) {
    exists i :: 0 <= i < |os| && os[i].path == q
  }

  /** The flag of a structured feature on the path of an override. */
  predicate Flag(os: seq<Override>, q: seq<string>) {
    q != [] && q[|q| - 1] == "enabled" && Structured(q[..|q| - 1]) && Leads(os, q[..|q| - 1])
  }

  ghost predicate TracedAt(t: Tree, os: seq<Override>, q: seq<string>) {
    && (Look(t, q) != Absent ==> q == [] || Leads(os, q) || Flag(os, q))
    && (LeafAt(t, q) ==> q == [] || Given(os, q) || Flag(os, q))
  }

  /** Everything in the layer is on the path of an override, and every leaf at its end. */
  ghost predicate Traced(t: Tree, os: seq<Override>) {
    forall q :: TracedAt(t, os, q)
  }

  /** When two tables meet, the first one stays. */
  function KeepFirst(a: Tree, b: Tree): Tree { a }

  lemma OneMore(os: seq<Override>, o: Override, q: seq<string>)
    ensures Leads(os, q) || q <= o.path ==> Leads(os + [o], q)
    ensures Given(os, q) || q == o.path ==> Given(os + [o], q)
    ensures Flag(os, q) ==> Flag(os + [o], q)
  {
    var more := os + [o];
    assert more[|os|] == o && forall i :: 0 <= i < |os| ==> more[i] == os[i];
    if Leads(os, q) {
      var i :| 0 <= i < |os| && q <= os[i].path;
      assert q <= more[i].path;
    }
    if Given(os, q) {
      var i :| 0 <= i < |os| && os[i].path == q;
      assert more[i].path == q;
    }
    if Flag(os, q) {
      var i :| 0 <= i < |os| && q[..|q| - 1] <= os[i].path;
      assert q[..|q| - 1] <= more[i].path;
    }
  }

  /** A part that the override leaves as it was. */
  lemma Untouched(t: Tree, os: seq<Override>, u: Tree, o: Override, q: seq<string>)
    requires TracedAt(t, os, q) && Look(u, q) == Look(t, q)
    requires forall key :: Look(u, q + [key]) == Look(t, q + [key])
    ensures TracedAt(u, os + [o], q)
  {
    OneMore(os, o, q);
  }

  lemma Aside(path: seq<string>, q: seq<string>, key: string)
    requires !(path <= q) && !(q <= path)
    ensures !(path <= q + [key]) && !(q + [key] <= path)
  {
  }

  lemma {:induction false} LookBelow(t: Tree, path: seq<string>, rest: seq<string>)
    requires Sub(t, path).Some?
    ensures Look(t, path + rest) == Look(Sub(t, path).value, rest)
    decreases |path|
  {
    if path == [] {
      assert path + rest == rest;
    } else {
      LookBelow(t.children[path[0]], path[1..], rest);
      assert (path + rest)[1..] == path[1..] + rest;
    }
  }

  /** Below a leaf nothing shows. */
  lemma NothingBelow(value: Tree, rest: seq<string>)
    requires LeafTree(value) && rest != []
    ensures Look(value, rest) == Absent
  {
  }

  lemma FlagSet(there: Tree, flag: Tree, rest: seq<string>)
    requires there.Branch? && flag.Scalar? && rest != []
    ensures var c := Branch(there.children["enabled" := flag]);
      if rest[0] != "enabled" then Look(c, rest) == Look(there, rest)
      else Look(c, rest) == if |rest| == 1 then IsScalar(flag.value) else Absent
  {
    if rest[0] == "enabled" && |rest| > 1 {
      NothingBelow(flag, rest[1..]);
    }
  }

  /** What a structured feature shows below after it took a value: a flag, nothing, or what it showed. */
  lemma CombinedBelow(there: Tree, value: Tree, rest: seq<string>)
    requires LeafTree(value) && rest != []
    ensures var c := Combine(there, value, KeepFirst);
      || rest == ["enabled"] || Look(c, rest) == Absent
      || (Look(c, rest) == Look(there, rest) && forall key :: Look(c, rest + [key]) == Look(there, rest + [key]))
  {
    if there.Branch? && IsBool(value) {
      FlagSet(there, value, rest);
      forall key
        ensures rest[0] != "enabled" ==>
          Look(Branch(there.children["enabled" := value]), rest + [key]) == Look(there, rest + [key])
      {
        FlagSet(there, value, rest + [key]);
      }
    } else if IsBool(there) && value.Branch? {
      FlagSet(EMPTY, there, rest);
    } else if there.Branch? && value.Branch? {
      assert Combine(there, value, KeepFirst) == there;
    } else {
      NothingBelow(value, rest);
    }
  }

  lemma ShownUnder(t: Tree, o: Override, q: seq<string>, key: string)
    requires o.path != [] && o.path <= q && Sub(t, o.path).Some?
    requires var rest := q[|o.path|..] + [key];
      Look(Landed(t, [], o.path, o.value, KeepFirst), rest) == Look(Sub(t, o.path).value, rest)
    ensures Look(Apply(t, [], o.path, o.value, KeepFirst), q + [key]) == Look(t, q + [key])
  {
    var rest := q[|o.path|..] + [key];
    assert q + [key] == o.path + rest && (q + [key])[|o.path|..] == rest;
    ApplyLook(t, [], o.path, o.value, KeepFirst, q + [key]);
    LookBelow(t, o.path, rest);
  }

  lemma BelowTraced(t: Tree, os: seq<Override>, o: Override, q: seq<string>)
    requires TracedAt(t, os, q) && o.path != [] && LeafTree(o.value) && o.path <= q
    ensures TracedAt(Apply(t, [], o.path, o.value, KeepFirst), os + [o], q)
  {
    var u, rest := Apply(t, [], o.path, o.value, KeepFirst), q[|o.path|..];
    var landed, there := Landed(t, [], o.path, o.value, KeepFirst), Sub(t, o.path);
    assert q == o.path + rest;
    ApplyLook(t, [], o.path, o.value, KeepFirst, q);
    OneMore(os, o, q);
    OneMore(os, o, o.path);
    if rest != [] && landed == o.value {
      NothingBelow(o.value, rest);
    } else if rest != [] {
      CombinedBelow(there.value, o.value, rest);
      if rest == ["enabled"] {
        assert q[..|q| - 1] == o.path && [] + o.path == o.path;
      } else if Look(u, q) != Absent {
        LookBelow(t, o.path, rest);
        forall key
          ensures Look(u, q + [key]) == Look(t, q + [key])
        {
          ShownUnder(t, o, q, key);
        }
        Untouched(t, os, u, o, q);
      }
    }
  }

  lemma AboveTraced(t: Tree, os: seq<Override>, o: Override, q: seq<string>)
    requires o.path != [] && q < o.path
    ensures TracedAt(Apply(t, [], o.path, o.value, KeepFirst), os + [o], q)
  {
    var u, next := Apply(t, [], o.path, o.value, KeepFirst), q + [o.path[|q|]];
    OneMore(os, o, q);
    ApplyLook(t, [], o.path, o.value, KeepFirst, q);
    ApplyLook(t, [], o.path, o.value, KeepFirst, next);
    assert o.path <= next ==> next[|o.path|..] == [];
    assert Look(u, q) == IsTable && Look(u, next) != Absent;
  }

  lemma AsideTraced(t: Tree, os: seq<Override>, o: Override, q: seq<string>)
    requires TracedAt(t, os, q) && o.path != [] && !(q <= o.path) && !(o.path <= q)
    ensures TracedAt(Apply(t, [], o.path, o.value, KeepFirst), os + [o], q)
  {
    var u := Apply(t, [], o.path, o.value, KeepFirst);
    ApplyLook(t, [], o.path, o.value, KeepFirst, q);
    if Promoted(t, [], o.path, q) {
      OneMore(os, o, q[..|q| - 1]);
      assert [] + q[..|q| - 1] == q[..|q| - 1];
    } else {
      forall key
        ensures Look(u, q + [key]) == Look(t, q + [key])
      {
        Aside(o.path, q, key);
        ApplyLook(t, [], o.path, o.value, KeepFirst, q + [key]);
        assert (q + [key])[..|q|] == q;
      }
      Untouched(t, os, u, o, q);
    }
  }

  lemma {:induction false} LayerTraced(os: seq<Override>)
    requires forall i :: 0 <= i < |os| ==> os[i].path != [] && LeafTree(os[i].value)
    ensures Traced(BuildLayer(os, KeepFirst), os)
  {
    if os == [] {
      assert forall q: seq<string> :: q != [] ==> Look(EMPTY, q) == Absent;
    } else {
      var front, o := os[..|os| - 1], os[|os| - 1];
      LayerTraced(front);
      assert os == front + [o];
      forall q
        ensures TracedAt(BuildLayer(os, KeepFirst), os, q)
      {
        assert TracedAt(BuildLayer(front, KeepFirst), front, q);
        if o.path <= q {
          BelowTraced(BuildLayer(front, KeepFirst), front, o, q);
        } else if q <= o.path {
          AboveTraced(BuildLayer(front, KeepFirst), front, o, q);
        } else {
          AsideTraced(BuildLayer(front, KeepFirst), front, o, q);
        }
      }
    }
  }

  // ----- parts with an equals sign -----

  /** Merging an empty table into a table leaves it as it is. */
  ghost predicate EmptyAddsNothing(merge: (Tree, Tree) -> Tree) {
    forall t: Tree :: t.Branch? ==> merge(t, EMPTY) == t
  }

  /** With a leaf, every merge that ignores empty tables combines alike. */
  lemma CombineLeaf(there: Tree, value: Tree, merge: (Tree, Tree) -> Tree)
    requires LeafTree(value) && EmptyAddsNothing(merge)
    ensures Combine(there, value, merge) == Combine(there, value, KeepFirst)
  {
  }

  lemma {:induction false} ApplyLeaf(t: Tree, done: seq<string>, path: seq<string>, value: Tree,
                                     merge: (Tree, Tree) -> Tree)
    requires path != [] && LeafTree(value) && EmptyAddsNothing(merge)
    ensures Apply(t, done, path, value, merge) == Apply(t, done, path, value, KeepFirst)
    decreases |path|
  {
    if |path| == 1 {
      if t.Branch? && path[0] in t.children {
        CombineLeaf(t.children[path[0]], value, merge);
      }
    } else {
      ApplyLeaf(Through(t, done, path[0]), done + [path[0]], path[1..], value, merge);
    }
  }

  /** Overrides whose values are leaves build the same layer under every such merge. */
  lemma {:induction false} LeafLayer(os: seq<Override>, merge: (Tree, Tree) -> Tree)
    requires EmptyAddsNothing(merge)
    requires forall i :: 0 <= i < |os| ==> os[i].path != [] && LeafTree(os[i].value)
    ensures BuildLayer(os, merge) == BuildLayer(os, KeepFirst)
  {
    if os != [] {
      var front, o := os[..|os| - 1], os[|os| - 1];
      LeafLayer(front, merge);
      ApplyLeaf(BuildLayer(front, merge), [], o.path, o.value, merge);
    }
  }

  predicate FreeOfEquals(path: seq<string>) {
    forall i :: 0 <= i < |path| ==> '=' !in path[i]
  }

  /** An override on the way to `q`, no longer than `j`, whose value holds more than a leaf. */
  predicate Carries(os: seq<Override>, q: seq<string>, j: nat) {
    exists i :: 0 <= i < |os| && |os[i].path| <= j && os[i].path <= q && !LeafTree(os[i].value)
  }

  lemma CarriesMore(os: seq<Override>, o: Override, q: seq<string>, j: nat)
    requires Carries(os, q, j) || (|o.path| <= j && o.path <= q && !LeafTree(o.value))
    ensures Carries(os + [o], q, j)
  {
    var more := os + [o];
    if Carries(os, q, j) {
      var i :| 0 <= i < |os| && |os[i].path| <= j && os[i].path <= q && !LeafTree(os[i].value);
      assert more[i] == os[i];
    } else {
      assert more[|os|] == o;
    }
  }

  /** Below a leaf override, a part with an equals sign was there before. */
  lemma LandedShows(t: Tree, o: Override, merge: (Tree, Tree) -> Tree, q: seq<string>, j: nat)
    requires o.path != [] && LeafTree(o.value) && EmptyAddsNothing(merge) && o.path <= q
    requires |o.path| <= j < |q| && '=' in q[j]
    requires Look(Landed(t, [], o.path, o.value, merge), q[|o.path|..]) != Absent
    ensures Look(t, q) != Absent
  {
    var rest, there := q[|o.path|..], Sub(t, o.path);
    assert q == o.path + rest && '=' in rest[j - |o.path|];
    if Landed(t, [], o.path, o.value, merge) == o.value {
      NothingBelow(o.value, rest);
    } else {
      CombineLeaf(there.value, o.value, merge);
      CombinedBelow(there.value, o.value, rest);
      LookBelow(t, o.path, rest);
    }
  }

  lemma StepCarries(t: Tree, os: seq<Override>, o: Override, merge: (Tree, Tree) -> Tree, q: seq<string>, j: nat)
    requires o.path != [] && FreeOfEquals(o.path) && EmptyAddsNothing(merge) && j < |q| && '=' in q[j]
    requires Look(t, q) != Absent ==> Carries(os, q, j)
    requires Look(Apply(t, [], o.path, o.value, merge), q) != Absent
    ensures Carries(os + [o], q, j)
  {
    ApplyLook(t, [], o.path, o.value, merge, q);
    if o.path <= q {
      assert |o.path| <= j;
      if LeafTree(o.value) {
        LandedShows(t, o, merge, q, j);
      }
    }
    CarriesMore(os, o, q, j);
  }

  /** What the layer shows at a path with an equals sign is inside the value of an override. */
  lemma {:induction false} LayerCarries(os: seq<Override>, merge: (Tree, Tree) -> Tree, q: seq<string>, j: nat)
    requires EmptyAddsNothing(merge) && j < |q| && '=' in q[j]
    requires forall i :: 0 <= i < |os| ==> os[i].path != [] && FreeOfEquals(os[i].path)
    requires Look(BuildLayer(os, merge), q) != Absent
    ensures Carries(os, q, j)
  {
    if os != [] {
      var front, o := os[..|os| - 1], os[|os| - 1];
      if Look(BuildLayer(front, merge), q) != Absent {
        LayerCarries(front, merge, q, j);
      }
      StepCarries(BuildLayer(front, merge), front, o, merge, q, j);
      assert os == front + [o];
    }
  }
}
