/** The overrides of a configuration rebuild it exactly when every line is read back as it was written. */
module OverridesExact {
  import opened Wrappers
  import opened Toml
  import opened Overrides
  import opened OverrideTree
  import opened OverridesRoundTrip
  import opened OverrideTraces
  import opened OverrideLines

  /** The flag of a structured feature on an addressable path is addressable. */
  lemma FlagAddressable(path: seq<string>, q: seq<string>)
    requires Addressable(path) && q != [] && q[|q| - 1] == "enabled" && q[..|q| - 1] <= path && Structured(q[..|q| - 1])
    ensures Addressable(q)
  {
    var feature := q[..|q| - 1];
    assert forall i :: 0 <= i < |feature| ==> q[i] == feature[i] == path[i];
    DottedSnoc(feature, "enabled");
    assert q == feature + ["enabled"];
    assert Dotted(q)[|Dotted(q)| - 1] == 'd';
    assert Dotted(q) == q[0] + "." + Dotted(q[1..]);
  }

  /** Every line is read, and together the overrides build `target`. */
  predicate Rebuilds(lines: seq<string>, merge: (Tree, Tree) -> Tree, target: Tree) {
    && (forall i :: 0 <= i < |lines| ==> ReadOverride(lines[i]).Ok?)
    && BuildLayer(ReadAll(lines), merge) == target
  }

  lemma PrefixNotAcross(path: seq<string>, key: string, longer: seq<string>)
    requires path + [key] <= longer
    ensures path <= longer && path != longer
  {
    assert (path + [key])[..|path|] == path;
  }

  lemma HeldPrefix(t: Tree, os: seq<Override>, q: seq<string>) returns (j: nat)
    requires Holds(t, os) && q != [] && Look(t, q) != Absent
    ensures j < |os| && q <= os[j].path
  {
    var o :| o in os && q <= o.path;
    j :| 0 <= j < |os| && os[j] == o;
  }

  lemma HeldAt(t: Tree, os: seq<Override>, i: nat)
    requires Holds(t, os) && i < |os|
    ensures Look(t, os[i].path) == Look(os[i].value, [])
  {
    assert os[i] in os;
  }

  lemma NothingUnder(t: Tree, os: seq<Override>, i: nat, key: string)
    requires Holds(t, os) && Spread(os) && i < |os|
    ensures Look(t, os[i].path + [key]) == Absent
  {
    if Look(t, os[i].path + [key]) != Absent {
      var j := HeldPrefix(t, os, os[i].path + [key]);
      PrefixNotAcross(os[i].path, key, os[j].path);
    }
  }

  /** Each value that a configuration wants stands as a leaf in the tree that holds them. */
  lemma WantedLeaf(t: Tree, os: seq<Override>, i: nat)
    requires Holds(t, os) && Spread(os) && i < |os| && LeafTree(os[i].value)
    ensures LeafAt(t, os[i].path)
  {
    HeldAt(t, os, i);
    forall key
      ensures Look(t, os[i].path + [key]) == Absent
    {
      NothingUnder(t, os, i, key);
    }
  }

  /** A leaf of the layer that was read is at an addressable path. */
  lemma LeafAddressable(os: seq<Override>, q: seq<string>)
    requires forall i :: 0 <= i < |os| ==> Addressable(os[i].path) && os[i].path != [] && LeafTree(os[i].value)
    requires q != [] && LeafAt(BuildLayer(os, KeepFirst), q)
    ensures Addressable(q)
  {
    LayerTraced(os);
    assert TracedAt(BuildLayer(os, KeepFirst), os, q);
    if !Given(os, q) {
      var i :| 0 <= i < |os| && q[..|q| - 1] <= os[i].path;
      FlagAddressable(os[i].path, q);
    }
  }

  lemma SpreadKept(os: seq<Override>, wanted: seq<Override>)
    requires |os| == |wanted| && Spread(wanted)
    requires forall i :: 0 <= i < |os| ==> os[i].path == wanted[i].path
    ensures Spread(os)
  {
    forall i, j | 0 <= i < j < |os|
      ensures Across(os[i], os[j])
    {
      assert Across(wanted[i], wanted[j]);
    }
  }

  /** Overrides at the wanted paths build the wanted tree only if they are the wanted ones. */
  lemma SameOverrides(os: seq<Override>, wanted: seq<Override>)
    requires |os| == |wanted| && Spread(wanted)
    requires forall i :: 0 <= i < |os| ==> os[i].path == wanted[i].path && os[i].path != []
    requires forall i :: 0 <= i < |os| ==> LeafTree(os[i].value) && LeafTree(wanted[i].value)
    requires Holds(BuildLayer(os, KeepFirst), wanted)
    ensures os == wanted
  {
    SpreadKept(os, wanted);
    SpreadApart(os);
    LayerHolds(os, KeepFirst);
    forall i | 0 <= i < |os|
      ensures os[i] == wanted[i]
    {
      HeldAt(BuildLayer(os, KeepFirst), os, i);
      HeldAt(BuildLayer(os, KeepFirst), wanted, i);
    }
  }

  // ----- no wanted path has an equals sign -----

  /** The lines were written for `wanted`, and the layer they are read to holds it. */
  ghost predicate Rebuilt(lines: seq<string>, wanted: seq<Override>, merge: (Tree, Tree) -> Tree) {
    && Written(lines, [], wanted) && EmptyAddsNothing(merge)
    && (forall i :: 0 <= i < |wanted| ==> wanted[i].path != [] && LeafTree(wanted[i].value))
    && (forall i :: 0 <= i < |lines| ==> ReadOverride(lines[i]).Ok?)
    && Holds(BuildLayer(ReadAll(lines), merge), wanted)
  }

  lemma WrittenAt(lines: seq<string>, wanted: seq<Override>, i: nat)
    requires Written(lines, [], wanted) && i < |lines|
    ensures WrittenFor(lines[i], wanted[i].path)
  {
    assert [] + wanted[i].path == wanted[i].path;
    assert WrittenFor(lines[i], [] + wanted[i].path);
  }

  /** A line that is read as more than a leaf was written for a path with an equals sign, in a segment
      that the path read goes beyond. */
  lemma ReadAsTable(lines: seq<string>, wanted: seq<Override>, i: nat) returns (e: nat)
    requires Written(lines, [], wanted) && i < |lines| && wanted[i].path != [] && ReadOverride(lines[i]).Ok?
    requires !LeafTree(ReadOverride(lines[i]).value.value)
    ensures EqualsIn(wanted[i].path, e) && e < |ReadOverride(lines[i]).value.path|
  {
    WrittenAt(lines, wanted, i);
    if FreeOfEquals(wanted[i].path) {
      ReadLeaf(lines[i], wanted[i].path);
    }
    e := FirstEquals(wanted[i].path);
    ReadDeeper(lines[i], wanted[i].path, e);
  }

  lemma AllAddressable(lines: seq<string>)
    requires forall i :: 0 <= i < |lines| ==> ReadOverride(lines[i]).Ok?
    ensures forall i :: 0 <= i < |lines| ==> Addressable(ReadAll(lines)[i].path) && FreeOfEquals(ReadAll(lines)[i].path)
  {
    forall i | 0 <= i < |lines|
      ensures Addressable(ReadAll(lines)[i].path)
    {
      ReadAddressable(lines[i]);
    }
  }

  /** If a wanted path has its first equals sign in segment `e`, another one has it further up. */
  lemma FurtherUp(lines: seq<string>, wanted: seq<Override>, merge: (Tree, Tree) -> Tree, i: nat, e: nat)
    returns (k: nat, f: nat)
    requires Rebuilt(lines, wanted, merge) && i < |wanted| && EqualsIn(wanted[i].path, e)
    ensures k < |wanted| && f < e && EqualsIn(wanted[k].path, f)
  {
    var os, q := ReadAll(lines), wanted[i].path;
    HeldAt(BuildLayer(os, merge), wanted, i);
    AllAddressable(lines);
    LayerCarries(os, merge, q, e);
    k :| 0 <= k < |os| && |os[k].path| <= e && os[k].path <= q && !LeafTree(os[k].value);
    f := ReadAsTable(lines, wanted, k);
  }

  /** By descent, no wanted path has its first equals sign anywhere. */
  lemma {:induction false} NoEqualsAt(lines: seq<string>, wanted: seq<Override>, merge: (Tree, Tree) -> Tree,
                                      i: nat, e: nat)
    requires Rebuilt(lines, wanted, merge) && i < |wanted|
    ensures !EqualsIn(wanted[i].path, e)
    decreases e
  {
    if EqualsIn(wanted[i].path, e) {
      var k, f := FurtherUp(lines, wanted, merge, i, e);
      NoEqualsAt(lines, wanted, merge, k, f);
    }
  }

  lemma NoEquals(lines: seq<string>, wanted: seq<Override>, merge: (Tree, Tree) -> Tree, i: nat)
    requires Rebuilt(lines, wanted, merge) && i < |wanted|
    ensures FreeOfEquals(wanted[i].path)
  {
    if !FreeOfEquals(wanted[i].path) {
      var e := FirstEquals(wanted[i].path);
      NoEqualsAt(lines, wanted, merge, i, e);
    }
  }

  // ----- the exact condition -----

  /** What line `i` is read as. */
  lemma LineReadAs(lines: seq<string>, wanted: seq<Override>, merge: (Tree, Tree) -> Tree, i: nat)
    requires Rebuilt(lines, wanted, merge) && i < |lines|
    ensures var o := ReadAll(lines)[i];
      && Addressable(o.path) && o.path != [] && LeafTree(o.value)
      && (Addressable(wanted[i].path) ==> o.path == wanted[i].path)
  {
    NoEquals(lines, wanted, merge, i);
    WrittenAt(lines, wanted, i);
    ReadAddressable(lines[i]);
    ReadLeaf(lines[i], wanted[i].path);
  }

  lemma ReadBack(lines: seq<string>, wanted: seq<Override>)
    requires forall i :: 0 <= i < |lines| ==> ReadOverride(lines[i]).Ok?
    requires ReadAll(lines) == wanted
    ensures ReadAs(lines, [], wanted)
  {
    assert forall i :: 0 <= i < |wanted| ==> Override([] + wanted[i].path, wanted[i].value) == wanted[i];
  }

  lemma ReadAsWanted(lines: seq<string>, wanted: seq<Override>, merge: (Tree, Tree) -> Tree)
    requires Rebuilt(lines, wanted, merge) && Spread(wanted)
    ensures ReadAs(lines, [], wanted)
  {
    var os := ReadAll(lines);
    forall i | 0 <= i < |os|
      ensures Addressable(os[i].path) && os[i].path != [] && LeafTree(os[i].value)
      ensures Addressable(wanted[i].path) ==> os[i].path == wanted[i].path
    {
      LineReadAs(lines, wanted, merge, i);
    }
    LeafLayer(os, merge);
    forall i | 0 <= i < |os|
      ensures os[i].path == wanted[i].path
    {
      WantedLeaf(BuildLayer(os, KeepFirst), wanted, i);
      LeafAddressable(os, wanted[i].path);
    }
    SameOverrides(os, wanted);
    ReadBack(lines, wanted);
  }

  lemma WantedApart(config: Value)
    requires config.Table? && config.entries != [] && ProperTables(config)
    ensures var wanted := WantedOf(config.entries);
      && Spread(wanted) && Holds(ToTree(Pruned(config)), wanted)
      && forall i :: 0 <= i < |wanted| ==> wanted[i].path != [] && LeafTree(wanted[i].value)
  {
    var wanted := WantedOf(config.entries);
    WantedSpread(config);
    TreeHolds(config);
    WantedLeaves(config);
    forall i | 0 <= i < |wanted|
      ensures wanted[i].path != [] && LeafTree(wanted[i].value)
    {
      assert wanted[i] in wanted;
      WantedMember(config.entries, wanted[i]);
    }
  }

  lemma RebuildsFaithful(config: Value, merge: (Tree, Tree) -> Tree)
    requires config.Table? && config.entries != [] && ProperTables(config) && EmptyAddsNothing(merge)
    requires Flatten(config, "").Ok? && Rebuilds(Flatten(config, "").value, merge, ToTree(Pruned(config)))
    ensures Faithful(config, [])
  {
    assert Dotted([]) == "";
    EntriesWritten(config.entries, []);
    WantedApart(config);
    ReadAsWanted(Flatten(config, "").value, WantedOf(config.entries), merge);
    FlattenEntriesRead(config.entries, []);
  }

  /** The overrides of a configuration are read and rebuild it, without undefined children and hollow
      tables, exactly when every path to a leaf is addressable and every leaf legible. The merging of two
      tables may be any that leaves a table alone when an empty one is merged into it. */
  lemma RebuildsExactly(config: Value, merge: (Tree, Tree) -> Tree)
    requires config.Table? && ProperTables(config) && Flatten(config, "").Ok? && EmptyAddsNothing(merge)
    ensures Rebuilds(Flatten(config, "").value, merge, ToTree(Pruned(config)))
       <==> (config.entries != [] ==> Faithful(config, []))
  {
    if config.entries != [] ==> Faithful(config, []) {
      OverridesRebuild(config, Flatten(config, "").value, merge);
    } else if Rebuilds(Flatten(config, "").value, merge, ToTree(Pruned(config))) {
      RebuildsFaithful(config, merge);
    }
  }

  /** The lines are read as what they were written for, one by one, exactly under the same condition. */
  lemma ReadBackExactly(config: Value)
    requires config.Table? && config.entries != [] && ProperTables(config) && Flatten(config, "").Ok?
    ensures ReadAs(Flatten(config, "").value, [], WantedOf(config.entries)) <==> Faithful(config, [])
  {
    assert Dotted([]) == "";
    FlattenEntriesRead(config.entries, []);
  }
}
