/** The lines that a configuration is written to, and what the command line reads them as. */
module OverrideLines {
  import opened Wrappers
  import opened Toml
  import opened TomlRoundTrip
  import opened Overrides
  import opened OverrideTree
  import opened OverridesRoundTrip
  import opened OverrideTraces

  // ----- what the lines are read as -----

  /** A line that was written for a leaf at `path`. */
  ghost predicate WrittenFor(line: string, path: seq<string>) {
    exists text :: line == Dotted(path) + "=" + text && Tight(text) && LeafTree(ToTree(ReadText(text)))
  }

  /** The lines were written for the ends of the paths of `os`, all below `path`. */
  ghost predicate Written(lines: seq<string>, path: seq<string>, os: seq<Override>) {
    && |lines| == |os|
    && forall i :: 0 <= i < |lines| ==> WrittenFor(lines[i], path + os[i].path)
  }

  lemma LeafText(v: Value, d: string)
    requires Render(v, d).Ok? && ProperTables(v) && (v.Table? ==> v.entries == [])
    ensures Tight(Render(v, d).value) && LeafTree(ToTree(ReadText(Render(v, d).value)))
  {
    RenderedTight(v, d);
    RoundTrip(v, d);
  }

  lemma {:induction false} FlattenWritten(v: Value, path: seq<string>)
    requires path != [] && NoEmptyKey(path) && ProperTables(v)
    requires Flatten(v, Dotted(path)).Ok?
    ensures Written(Flatten(v, Dotted(path)).value, path, Wanted(v))
    decreases v, 1
  {
    DottedEmpty(path);
    if v.Table? && v.entries != [] {
      EntriesWritten(v.entries, path);
    } else {
      var d := Dotted(path);
      LeafLine(v, d);
      LeafText(v, d);
      assert path + [] == path;
      assert WrittenFor(d + "=" + Render(v, d).value, path);
    }
  }

  lemma WrittenBelow(lines: seq<string>, path: seq<string>, key: string, os: seq<Override>)
    requires Written(lines, path + [key], os)
    ensures Written(lines, path, Below(key, os))
  {
    assert forall i :: 0 <= i < |os| ==> path + [key] + os[i].path == path + ([key] + os[i].path);
  }

  lemma WrittenBoth(lines: seq<string>, more: seq<string>, path: seq<string>, os: seq<Override>, ps: seq<Override>)
    requires Written(lines, path, os) && Written(more, path, ps)
    ensures Written(lines + more, path, os + ps)
  {
  }

  lemma {:induction false} EntryWritten(e: Entry, path: seq<string>)
    requires NoEmptyKey(path) && e.key != "" && ProperTables(e.value) && FlattenEntry(e, Dotted(path)).Ok?
    ensures Written(FlattenEntry(e, Dotted(path)).value, path, Below(e.key, Wanted(e.value)))
    decreases e, 2
  {
    EntryPath(e, path);
    FlattenWritten(e.value, path + [e.key]);
    WrittenBelow(FlattenEntry(e, Dotted(path)).value, path, e.key, Wanted(e.value));
  }

  lemma {:induction false} EntriesWritten(entries: seq<Entry>, path: seq<string>)
    requires NoEmptyKey(path) && ProperTables(Table(entries)) && FlattenEntries(entries, Dotted(path)).Ok?
    ensures Written(FlattenEntries(entries, Dotted(path)).value, path, WantedOf(entries))
    decreases entries, 0
  {
    if entries != [] {
      var e, rest := entries[0], entries[1..];
      RestFaithful(entries, path);
      EntriesWritten(rest, path);
      if !e.value.Undefined? {
        EntryWritten(e, path);
        WrittenBoth(FlattenEntry(e, Dotted(path)).value, FlattenEntries(rest, Dotted(path)).value, path,
                    Below(e.key, Wanted(e.value)), WantedOf(rest));
      }
    }
  }

  lemma {:induction false} TrimStartKeepsOut(s: string, c: char)
    requires c !in s
    ensures c !in TrimStart(s)
  {
    if s != [] && IsSpace(s[0]) {
      TrimStartKeepsOut(s[1..], c);
    }
  }

  lemma TrimKeepsOut(s: string, c: char)
    requires c !in s
    ensures c !in Trim(s)
  {
    TrimStartKeepsOut(s, c);
    TrimEndPrefix(TrimStart(s));
  }

  lemma KeyAddressable(d: string)
    requires '=' !in d && Trim(d) != ""
    ensures Addressable(SplitDots(Canonical(Trim(d))))
  {
    var key := Canonical(Trim(d));
    var path := SplitDots(key);
    Trimmed(d);
    TrimKeepsOut(d, '=');
    DottedSplit(key);
    DottedHas(path, '=');
    assert '=' !in key;
  }

  lemma ReadSplits(d: string, text: string)
    requires '=' !in d && Tight(text)
    ensures ReadOverride(d + "=" + text)
         == if Trim(d) == "" then Err(EmptyCliKey)
            else Ok(Override(SplitDots(Canonical(Trim(d))), ToTree(ReadText(text))))
  {
    LineSplits(d, text);
    Trimmed(text);
    assert d[..|d|] == d;
  }

  /** Whatever a line is read as is addressable. */
  lemma ReadAddressable(line: string)
    requires ReadOverride(line).Ok?
    ensures Addressable(ReadOverride(line).value.path) && ReadOverride(line).value.path != []
  {
    KeyAddressable(line[..EqualsAt(line)]);
  }

  /** A line for a path without an equals sign is read as a leaf, at that path if it is addressable. */
  lemma ReadLeaf(line: string, path: seq<string>)
    requires path != [] && FreeOfEquals(path) && WrittenFor(line, path) && ReadOverride(line).Ok?
    ensures LeafTree(ReadOverride(line).value.value)
    ensures Addressable(path) ==> ReadOverride(line).value.path == path
  {
    var text :| line == Dotted(path) + "=" + text && Tight(text) && LeafTree(ToTree(ReadText(text)));
    PathReadsBack(path, text);
    DottedHas(path, '=');
    ReadSplits(Dotted(path), text);
  }

  // ----- how deep a line with an equals sign in its path is read -----

  function Dots(s: string): nat {
    if s == [] then 0 else (if s[0] == '.' then 1 else 0) + Dots(s[1..])
  }

  lemma {:induction false} DotsAppend(s: string, t: string)
    ensures Dots(s + t) == Dots(s) + Dots(t)
  {
    if s == [] {
      assert s + t == t;
    } else {
      DotsAppend(s[1..], t);
      assert (s + t)[1..] == s[1..] + t;
    }
  }

  lemma {:induction false} SplitCount(s: string)
    ensures |SplitDots(s)| == Dots(s) + 1
  {
    if s != [] {
      SplitCount(s[1..]);
    }
  }

  lemma {:induction false} TrimStartDots(s: string)
    ensures Dots(TrimStart(s)) == Dots(s)
  {
    if s != [] && IsSpace(s[0]) {
      TrimStartDots(s[1..]);
    }
  }

  lemma {:induction false} TrimEndDots(s: string)
    ensures Dots(TrimEnd(s)) == Dots(s)
  {
    if s != [] && IsSpace(s[|s| - 1]) {
      var n := |s| - 1;
      TrimEndDots(s[..n]);
      DotsAppend(s[..n], [s[n]]);
      assert s == s[..n] + [s[n]] && [s[n]][1..] == [];
    }
  }

  lemma {:induction false} NoDots(s: string)
    requires '.' !in s
    ensures Dots(s) == 0
  {
    if s != [] {
      NoDots(s[1..]);
    }
  }

  /** A key is split into one more segment than it has dots; the alias has none. */
  lemma CanonicalSegments(key: string)
    ensures |SplitDots(Canonical(key))| > Dots(key)
  {
    if key == ALIAS {
      NoDots(ALIAS);
    } else {
      SplitCount(key);
    }
  }

  lemma KeySegments(d: string)
    ensures |SplitDots(Canonical(Trim(d)))| > Dots(d)
  {
    TrimStartDots(d);
    TrimEndDots(TrimStart(d));
    CanonicalSegments(Trim(d));
  }

  /** The first equals sign of a path is in segment `e`. */
  predicate EqualsIn(path: seq<string>, e: nat) {
    e < |path| && '=' in path[e] && FreeOfEquals(path[..e])
  }

  lemma EqualsAfter(front: string, back: string)
    requires '=' !in front
    ensures EqualsAt(front + back) == |front| + EqualsAt(back)
  {
    var s := front + back;
    assert forall i :: 0 <= i < |front| ==> s[i] == front[i];
    assert forall i :: 0 <= i < |back| ==> s[|front| + i] == back[i];
  }

  /** Before that sign the path has a dot for every segment passed. */
  lemma {:induction false} DotsBefore(path: seq<string>, e: nat)
    requires EqualsIn(path, e)
    ensures '=' in Dotted(path) && Dots(Dotted(path)[..EqualsAt(Dotted(path))]) >= e
  {
    DottedHas(path, '=');
    if e > 0 {
      var rest, front := path[1..], path[0] + ".";
      assert path[..e][0] == path[0] && path[..e][1..] == rest[..e - 1];
      DotsBefore(rest, e - 1);
      EqualsAfter(front, Dotted(rest));
      var n := EqualsAt(Dotted(rest));
      assert Dotted(path) == front + Dotted(rest);
      assert Dotted(path)[..|front| + n] == front + Dotted(rest)[..n];
      DotsAppend(front, Dotted(rest)[..n]);
      DotsAppend(path[0], ".");
      assert Dots(".") == 1;
    }
  }

  lemma EqualsInLine(d: string, text: string)
    requires '=' in d
    ensures var line := d + "=" + text; EqualsAt(line) == EqualsAt(d) && line[..EqualsAt(d)] == d[..EqualsAt(d)]
  {
    LineSplits(d, text);
    var line := d + "=" + text;
    assert forall i :: 0 <= i < |d| ==> line[i] == d[i];
    assert EqualsAt(d) < |d|;
  }

  /** A line for a path with an equals sign is read deeper than the segment of that sign. */
  lemma ReadDeeper(line: string, path: seq<string>, e: nat)
    requires EqualsIn(path, e) && WrittenFor(line, path) && ReadOverride(line).Ok?
    ensures |ReadOverride(line).value.path| > e
  {
    var text :| line == Dotted(path) + "=" + text && Tight(text) && LeafTree(ToTree(ReadText(text)));
    var d := Dotted(path);
    DotsBefore(path, e);
    EqualsInLine(d, text);
    KeySegments(d[..EqualsAt(d)]);
  }

  lemma {:induction false} FirstEquals(path: seq<string>) returns (e: nat)
    requires !FreeOfEquals(path)
    ensures EqualsIn(path, e)
  {
    var n := |path| - 1;
    if FreeOfEquals(path[..n]) {
      e := n;
    } else {
      e := FirstEquals(path[..n]);
      assert path[..n][..e] == path[..e];
    }
  }
}
