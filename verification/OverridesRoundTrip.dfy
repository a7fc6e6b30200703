/** Reading back flattened overrides, in any order, rebuilds the configuration. */
module OverridesRoundTrip {
  import opened Wrappers
  import opened Toml
  import opened TomlRoundTrip
  import opened Overrides
  import opened OverrideTree
  import opened Reordering

  // ----- trimming and splitting -----

  predicate Tight(s: string) {
    s == [] || (!IsSpace(s[0]) && !IsSpace(s[|s| - 1]))
  }

  lemma {:induction false} TrimEndPrefix(s: string)
    ensures TrimEnd(s) <= s
    ensures TrimEnd(s) != [] ==> !IsSpace(TrimEnd(s)[|TrimEnd(s)| - 1])
  {
    if s != [] && IsSpace(s[|s| - 1]) {
      TrimEndPrefix(s[..|s| - 1]);
    }
  }

  lemma {:induction false} TrimStartSuffix(s: string)
    ensures |TrimStart(s)| <= |s|
    ensures TrimStart(s) != [] ==> !IsSpace(TrimStart(s)[0])
  {
    if s != [] && IsSpace(s[0]) {
      TrimStartSuffix(s[1..]);
    }
  }

  /** Trimming leaves tight strings, and changes no tight string. */
  lemma Trimmed(s: string)
    ensures Tight(Trim(s)) && |Trim(s)| <= |s|
    ensures Trim(s) == s <==> Tight(s)
    ensures s != [] && !IsSpace(s[0]) ==> Trim(s) <= s
  {
    TrimStartSuffix(s);
    TrimEndPrefix(TrimStart(s));
  }

  lemma {:induction false} SplitOne(a: string)
    requires '.' !in a
    ensures SplitDots(a) == [a]
  {
    if a != [] {
      SplitOne(a[1..]);
      assert [a[0]] + a[1..] == a;
    }
  }

  lemma {:induction false} SplitFirst(a: string, rest: string)
    requires '.' !in a
    ensures SplitDots(a + "." + rest) == [a] + SplitDots(rest)
  {
    var s := a + "." + rest;
    if a == [] {
      assert s[1..] == rest;
    } else {
      SplitFirst(a[1..], rest);
      assert s[1..] == a[1..] + "." + rest && [a[0]] + a[1..] == a;
    }
  }

  function Dotted(path: seq<string>): string { Join(path, ".") }

  lemma {:induction false} SplitDotted(path: seq<string>)
    requires path != [] && forall i :: 0 <= i < |path| ==> '.' !in path[i]
    ensures SplitDots(Dotted(path)) == path
  {
    if |path| == 1 {
      SplitOne(path[0]);
    } else {
      SplitDotted(path[1..]);
      SplitFirst(path[0], Dotted(path[1..]));
    }
  }

  /** The segments of a key have no dot, and joined they give the key again. */
  lemma {:induction false} DottedSplit(s: string)
    ensures Dotted(SplitDots(s)) == s
    ensures forall i :: 0 <= i < |SplitDots(s)| ==> '.' !in SplitDots(s)[i]
  {
    if s != [] {
      var rest := SplitDots(s[1..]);
      DottedSplit(s[1..]);
      if s[0] == '.' {
        assert SplitDots(s)[1..] == rest;
      } else {
        JoinFirst([s[0]], rest);
      }
      assert [s[0]] + s[1..] == s;
    }
  }

  lemma JoinFirst(a: string, parts: seq<string>)
    requires parts != []
    ensures Dotted([a + parts[0]] + parts[1..]) == a + Dotted(parts)
  {
    var longer := [a + parts[0]] + parts[1..];
    assert longer[1..] == parts[1..];
    assert a + (parts[0] + "." + Dotted(parts[1..])) == a + parts[0] + "." + Dotted(parts[1..]);
  }

  lemma {:induction false} DottedSnoc(path: seq<string>, key: string)
    ensures Dotted(path + [key]) == if path == [] then key else Dotted(path) + "." + key
  {
    if |path| > 1 {
      DottedSnoc(path[1..], key);
      assert (path + [key])[1..] == path[1..] + [key];
      var a, b := path[0], Dotted(path[1..]);
      assert a + "." + (b + "." + key) == a + "." + b + "." + key;
    } else if |path| == 1 {
      assert (path + [key])[1..] == [key] && Dotted([key]) == key;
      assert (path + [key])[0] == path[0];
    }
  }

  // ----- reading one line back -----

  /** The paths that the command line reads as they were written. */
  predicate Addressable(path: seq<string>) {
    && (forall i :: 0 <= i < |path| ==> '.' !in path[i] && '=' !in path[i])
    && Dotted(path) != "" && Tight(Dotted(path)) && Dotted(path) != "use_legacy_landlock"
  }

  lemma {:induction false} DottedHas(path: seq<string>, c: char)
    requires c != '.'
    ensures c in Dotted(path) <==> exists i :: 0 <= i < |path| && c in path[i]
  {
    if |path| > 1 {
      DottedHas(path[1..], c);
      assert forall i :: 1 <= i < |path| ==> path[1..][i - 1] == path[i];
      assert Dotted(path) == path[0] + "." + Dotted(path[1..]);
    }
  }

  /** A line splits at the equals sign after its path, unless the path has one. */
  lemma LineSplits(d: string, text: string)
    ensures var line := d + "=" + text;
      && EqualsAt(line) <= |d| && line[..EqualsAt(line)] == d[..EqualsAt(line)]
      && (EqualsAt(line) == |d| <==> '=' !in d)
      && (EqualsAt(line) == |d| ==> line[|d| + 1..] == text)
  {
    var line := d + "=" + text;
    assert line[|d|] == '=' && forall i :: 0 <= i < |d| ==> line[i] == d[i];
  }

  /** The path of a line is read as it was written exactly when it is addressable. */
  lemma PathReadsBack(path: seq<string>, text: string)
    requires path != []
    ensures var r := ReadOverride(Dotted(path) + "=" + text);
      r.Ok? && r.value.path == path <==> Addressable(path)
  {
    var d := Dotted(path);
    var line := d + "=" + text;
    var n := EqualsAt(line);
    LineSplits(d, text);
    DottedHas(path, '=');
    Trimmed(d[..n]);
    var key := Trim(d[..n]);
    if Addressable(path) {
      SplitDotted(path);
      assert d[..n] == d;
    } else if key != "" && SplitDots(Canonical(key)) == path {
      DottedSplit(Canonical(key));
      AliasNotWritten(d, n);
    }
  }

  /** No line is read as the alias while its path is what the alias stands for. */
  lemma AliasNotWritten(d: string, n: nat)
    requires n <= |d|
    requires Canonical(Trim(d[..n])) == d
    ensures Trim(d[..n]) == d && d != "use_legacy_landlock"
  {
    Trimmed(d[..n]);
  }

  // ----- reading one value back -----

  lemma RenderedNatEnd(n: nat)
    ensures Tight(RenderNat(n))
  {
    RenderedNat(n);
    var r := RenderNat(n);
    assert IsDigit(r[0]) && IsDigit(r[|r| - 1]);
  }

  /** A rendering has no white space at its ends. */
  lemma RenderedTight(v: Value, path: string)
    requires Render(v, path).Ok?
    ensures Render(v, path).value != [] && Tight(Render(v, path).value)
  {
    if v.Int? {
      RenderedNatEnd(if v.n < 0 then -v.n else v.n);
    }
    RenderedStart(v, path);
  }

  function Backslashes(s: string): nat {
    if s == [] then 0 else (if s[0] == '\\' then 1 else 0) + Backslashes(s[1..])
  }

  lemma {:induction false} BackslashesAdd(s: string, t: string)
    ensures Backslashes(s + t) == Backslashes(s) + Backslashes(t)
  {
    if s == [] {
      assert s + t == t;
    } else {
      BackslashesAdd(s[1..], t);
      assert (s + t)[1..] == s[1..] + t;
    }
  }

  /** Escaping adds backslashes unless it changes nothing. */
  lemma {:induction false} EscapeAddsBackslashes(s: string)
    ensures Escape(s) == s || Backslashes(Escape(s)) > Backslashes(s)
    ensures Backslashes(Escape(s)) >= Backslashes(s)
  {
    if s != [] {
      EscapeAddsBackslashes(s[1..]);
      BackslashesAdd(EscapeChar(s[0]), Escape(s[1..]));
      EscapedCharBackslashes(s[0]);
      assert [s[0]] + s[1..] == s;
    }
  }

  lemma EscapedCharBackslashes(c: char)
    ensures if EscapeChar(c) == [c] then c != '\\' && Backslashes([c]) == 0
            else Backslashes(EscapeChar(c)) > if c == '\\' then 1 else 0
  {
    var e := EscapeChar(c);
    if e != [c] {
      assert Backslashes(e) == 1 + Backslashes(e[1..]);
      if c == '\\' {
        assert e[1..] == "\\" && Backslashes(e[1..]) == 1 + Backslashes(e[1..][1..]);
      }
    }
  }

  lemma {:induction false} TrimQuotesKeeps(s: string)
    ensures Backslashes(TrimQuotesStart(s)) == Backslashes(s)
    ensures Backslashes(TrimQuotesEnd(s)) == Backslashes(s)
    decreases |s|
  {
    if s != [] {
      TrimQuotesKeeps(s[1..]);
      TrimQuotesKeeps(s[..|s| - 1]);
      BackslashesAdd(s[..|s| - 1], [s[|s| - 1]]);
      assert s == s[..|s| - 1] + [s[|s| - 1]];
      assert Backslashes([s[|s| - 1]]) == if s[|s| - 1] == '\\' then 1 else 0;
    }
  }

  lemma {:induction false} TrimQuotesInside(s: string)
    ensures var t := TrimQuotesStart(s);
      TrimQuotesStart(s + "\"") == if t == [] then [] else t + "\""
  {
    if s != [] && (s[0] == '\"' || s[0] == '\'') {
      TrimQuotesInside(s[1..]);
      assert (s + "\"")[1..] == s[1..] + "\"";
    } else if s == [] {
      assert s + "\"" == "\"" && "\""[1..] == [];
    }
  }

  /** Stripping quotation marks strips those that quoting put on. */
  lemma TrimQuotesQuoted(body: string)
    ensures TrimQuotes("\"" + body + "\"") == TrimQuotes(body)
  {
    var s := "\"" + body + "\"";
    assert s[1..] == body + "\"";
    TrimQuotesInside(body);
    var t := TrimQuotesStart(body);
    if t != [] {
      assert (t + "\"")[..|t|] == t;
    }
  }

  /** The values whose rendering is read back as the value. A rendering that is no TOML is still read
      as a string, so a string with a delete character survives if quoting alone was enough for it. */
  predicate Legible(v: Value) {
    NoDel(v) || (v.Str? && Escape(v.s) == v.s && TrimQuotes(v.s) == v.s)
  }

  lemma ValueReadsBack(v: Value, path: string)
    requires Render(v, path).Ok? && ProperTables(v)
    ensures ToTree(ReadText(Render(v, path).value)) == ToTree(Clean(v)) <==> Legible(v)
  {
    RoundTrip(v, path);
    if !NoDel(v) && v.Str? {
      TrimQuotesQuoted(Escape(v.s));
      EscapeAddsBackslashes(v.s);
      TrimQuotesKeeps(Escape(v.s));
      TrimQuotesKeeps(TrimQuotesStart(Escape(v.s)));
    }
  }

  /** A line is read back as what it was written for exactly when its path is addressable and its value
      legible. */
  lemma LineReadsBack(path: seq<string>, v: Value, at: string)
    requires path != [] && Render(v, at).Ok? && ProperTables(v)
    ensures ReadOverride(Dotted(path) + "=" + Render(v, at).value) == Ok(Override(path, ToTree(Clean(v))))
       <==> Addressable(path) && Legible(v)
  {
    var text := Render(v, at).value;
    PathReadsBack(path, text);
    if Addressable(path) {
      LineSplits(Dotted(path), text);
      DottedHas(path, '=');
      RenderedTight(v, at);
      Trimmed(text);
      ValueReadsBack(v, at);
      var r := ReadOverride(Dotted(path) + "=" + text);
      assert r.value.value == ToTree(ReadText(text));
    }
  }

  // ----- reading all lines back -----

  /** Every path to a leaf is addressable and every leaf legible. */
  predicate Faithful(v: Value, path: seq<string>) {
    if v.Table? && v.entries != [] then
      forall i :: 0 <= i < |v.entries| && !v.entries[i].value.Undefined? ==>
        Faithful(v.entries[i].value, path + [v.entries[i].key])
    else
      Addressable(path) && Legible(v)
  }

  predicate ReadAs(lines: seq<string>, path: seq<string>, os: seq<Override>) {
    && |lines| == |os|
    && forall i :: 0 <= i < |lines| ==> ReadOverride(lines[i]) == Ok(Override(path + os[i].path, os[i].value))
  }

  predicate NoEmptyKey(path: seq<string>) {
    forall i :: 0 <= i < |path| ==> path[i] != ""
  }

  /** The lines of a value are read as what it wants exactly when it is faithful. */
  lemma {:induction false} FlattenReads(v: Value, path: seq<string>)
    requires path != [] && NoEmptyKey(path) && ProperTables(v)
    requires Flatten(v, Dotted(path)).Ok?
    ensures |Flatten(v, Dotted(path)).value| == |Wanted(v)|
    ensures ReadAs(Flatten(v, Dotted(path)).value, path, Wanted(v)) <==> Faithful(v, path)
    decreases v, 1
  {
    assert Dotted(path) != "" by {
      DottedSnoc(path[..|path| - 1], path[|path| - 1]);
      assert path[..|path| - 1] + [path[|path| - 1]] == path;
    }
    if v.Table? && v.entries != [] {
      FlattenEntriesRead(v.entries, path);
    } else {
      LeafReads(v, path);
    }
  }

  lemma EmptyTable(d: string)
    ensures Render(Table([]), d) == Ok("{}") && d + "={}" == d + "=" + "{}"
  {
    assert RenderEntries([], d) == Ok([]);
    assert "{" + Join([], ", ") + "}" == "{}";
  }

  lemma OneLine(line: string, path: seq<string>, value: Tree)
    ensures ReadAs([line], path, [Override([], value)]) <==> ReadOverride(line) == Ok(Override(path, value))
  {
    assert path + [] == path && [line][0] == line;
  }

  lemma LeafLine(v: Value, d: string)
    requires d != "" && (v.Table? ==> v.entries == []) && Flatten(v, d).Ok?
    ensures Render(v, d).Ok? && Flatten(v, d).value == [d + "=" + Render(v, d).value]
  {
    if v.Table? {
      EmptyTable(d);
    }
  }

  lemma LeafReads(v: Value, path: seq<string>)
    requires path != [] && Dotted(path) != "" && ProperTables(v)
    requires v.Table? ==> v.entries == []
    requires Flatten(v, Dotted(path)).Ok?
    ensures |Flatten(v, Dotted(path)).value| == |Wanted(v)|
    ensures ReadAs(Flatten(v, Dotted(path)).value, path, Wanted(v)) <==> Addressable(path) && Legible(v)
  {
    var d := Dotted(path);
    LeafLine(v, d);
    LineReadsBack(path, v, d);
    OneLine(d + "=" + Render(v, d).value, path, ToTree(Clean(v)));
  }

  lemma EntryPath(e: Entry, path: seq<string>)
    requires NoEmptyKey(path) && e.key != ""
    ensures FlattenEntry(e, Dotted(path)) == Flatten(e.value, Dotted(path + [e.key]))
  {
    DottedSnoc(path, e.key);
    DottedEmpty(path);
    DottedEmpty(path + [e.key]);
  }

  lemma {:induction false} EntryReads(e: Entry, path: seq<string>)
    requires NoEmptyKey(path) && e.key != "" && ProperTables(e.value)
    requires FlattenEntry(e, Dotted(path)).Ok?
    ensures |FlattenEntry(e, Dotted(path)).value| == |Wanted(e.value)|
    ensures ReadAs(FlattenEntry(e, Dotted(path)).value, path, Below(e.key, Wanted(e.value)))
       <==> Faithful(e.value, path + [e.key])
    decreases e, 2
  {
    EntryPath(e, path);
    FlattenReads(e.value, path + [e.key]);
    ReadAsBelow(FlattenEntry(e, Dotted(path)).value, path, e.key, Wanted(e.value));
  }

  lemma ReadAsBoth(lines: seq<string>, more: seq<string>, path: seq<string>, os: seq<Override>, ps: seq<Override>)
    requires |lines| == |os| && |more| == |ps|
    ensures ReadAs(lines + more, path, os + ps) <==> ReadAs(lines, path, os) && ReadAs(more, path, ps)
  {
    if ReadAs(lines + more, path, os + ps) {
      assert forall i :: 0 <= i < |lines| ==> (lines + more)[i] == lines[i] && (os + ps)[i] == os[i];
      assert forall i :: 0 <= i < |more| ==> (lines + more)[|lines| + i] == more[i] && (os + ps)[|os| + i] == ps[i];
    }
  }

  lemma {:induction false} FlattenEntriesRead(entries: seq<Entry>, path: seq<string>)
    requires NoEmptyKey(path) && ProperTables(Table(entries))
    requires FlattenEntries(entries, Dotted(path)).Ok?
    ensures |FlattenEntries(entries, Dotted(path)).value| == |WantedOf(entries)|
    ensures ReadAs(FlattenEntries(entries, Dotted(path)).value, path, WantedOf(entries))
       <==> (entries != [] ==> Faithful(Table(entries), path))
    decreases entries, 0
  {
    if entries != [] {
      var e, rest := entries[0], entries[1..];
      RestFaithful(entries, path);
      FlattenEntriesRead(rest, path);
      if !e.value.Undefined? {
        EntryReads(e, path);
        ReadAsBoth(FlattenEntry(e, Dotted(path)).value, FlattenEntries(rest, Dotted(path)).value, path,
                   Below(e.key, Wanted(e.value)), WantedOf(rest));
      }
    }
  }

  lemma RestFaithful(entries: seq<Entry>, path: seq<string>)
    requires entries != [] && ProperTables(Table(entries))
    ensures ProperTables(Table(entries[1..])) && ProperTables(entries[0].value)
    ensures var e, rest := entries[0], entries[1..];
      Faithful(Table(entries), path) <==>
        (rest != [] ==> Faithful(Table(rest), path)) && (!e.value.Undefined? ==> Faithful(e.value, path + [e.key]))
  {
    var rest := entries[1..];
    assert forall i :: 0 <= i < |rest| ==> rest[i] == entries[i + 1];
    assert forall i :: 1 <= i < |entries| ==> entries[i] == rest[i - 1];
  }

  lemma DottedEmpty(path: seq<string>)
    requires NoEmptyKey(path)
    ensures Dotted(path) == "" <==> path == []
  {
    if path != [] {
      DottedSnoc(path[..|path| - 1], path[|path| - 1]);
      assert path[..|path| - 1] + [path[|path| - 1]] == path;
    }
  }

  lemma ReadAsBelow(lines: seq<string>, path: seq<string>, key: string, os: seq<Override>)
    ensures ReadAs(lines, path + [key], os) <==> ReadAs(lines, path, Below(key, os))
  {
    assert forall i :: 0 <= i < |os| ==> path + [key] + os[i].path == path + ([key] + os[i].path);
  }

  // ----- in any order -----

  function ReadAll(lines: seq<string>): (os: seq<Override>)
    requires forall i :: 0 <= i < |lines| ==> ReadOverride(lines[i]).Ok?
    ensures |os| == |lines|
    ensures forall i :: 0 <= i < |lines| ==> os[i] == ReadOverride(lines[i]).value && os[i].path != []
  {
    seq(|lines|, i requires 0 <= i < |lines| => ReadOverride(lines[i]).value)
  }

  lemma {:induction false} WantedLeaves(v: Value)
    ensures forall o :: o in Wanted(v) ==> LeafTree(o.value)
  {
    if v.Table? && v.entries != [] {
      forall o | o in Wanted(v)
        ensures LeafTree(o.value)
      {
        WantedMember(v.entries, o);
        var i :| 0 <= i < |v.entries| && Descends(o, v.entries[i]);
        WantedLeaves(v.entries[i].value);
      }
    }
  }

  lemma ApartReordered(os: seq<Override>, reordered: seq<Override>)
    requires Apart(os) && multiset(os) == multiset(reordered)
    ensures Apart(reordered) && forall o :: o in os <==> o in reordered
  {
    SameElements(os, reordered);
  }

  lemma ReadAllReordered(lines: seq<string>, reordered: seq<string>)
    requires multiset(lines) == multiset(reordered)
    requires forall i :: 0 <= i < |lines| ==> ReadOverride(lines[i]).Ok?
    ensures forall i :: 0 <= i < |reordered| ==> ReadOverride(reordered[i]).Ok?
    ensures multiset(ReadAll(lines)) == multiset(ReadAll(reordered))
  {
    SameElements(lines, reordered);
    assert forall line :: line in lines ==> ReadOverride(line).Ok?;
    assert forall i :: 0 <= i < |reordered| ==> reordered[i] in lines;
    var f := map line | line in lines :: ReadOverride(line).value;
    ImageReordered(f, lines, ReadAll(lines), reordered, ReadAll(reordered));
  }

  lemma AllRead(lines: seq<string>, os: seq<Override>)
    requires ReadAs(lines, [], os)
    ensures forall i :: 0 <= i < |lines| ==> ReadOverride(lines[i]).Ok?
    ensures ReadAll(lines) == os
  {
    assert forall i :: 0 <= i < |os| ==> [] + os[i].path == os[i].path;
  }

  /** Overrides that together are what a configuration wants build that configuration, in any order. */
  lemma WantedRebuild(entries: seq<Entry>, os: seq<Override>, merge: (Tree, Tree) -> Tree)
    requires ProperTables(Table(entries)) && multiset(os) == multiset(WantedOf(entries))
    ensures forall i :: 0 <= i < |os| ==> os[i].path != []
    ensures BuildLayer(os, merge) == ToTree(Pruned(Table(entries)))
  {
    WantedSpreadOf(entries);
    SpreadApart(WantedOf(entries));
    ApartReordered(WantedOf(entries), os);
    forall o | o in os
      ensures o.path != [] && LeafTree(o.value)
    {
      WantedMember(entries, o);
      WantedLeaves(Table(entries));
    }
    LayerHolds(os, merge);
    if entries == [] {
      SameElements(os, []);
    } else {
      TreeHolds(Table(entries));
      HoldsUnique(BuildLayer(os, merge), ToTree(Pruned(Table(entries))), os, WantedOf(entries));
    }
  }

  // ----- bare keys -----

  const ALIAS := "use_legacy_landlock"

  lemma BareEnds(path: seq<string>)
    requires path != [] && forall i :: 0 <= i < |path| ==> Bare(path[i])
    ensures Dotted(path) != "" && BareChar(Dotted(path)[0]) && BareChar(Dotted(path)[|Dotted(path)| - 1])
    ensures |path| > 1 ==> '.' in Dotted(path)
  {
    var last := path[|path| - 1];
    assert Bare(path[0]) && Bare(last);
    DottedSnoc(path[..|path| - 1], last);
    assert path == path[..|path| - 1] + [last];
    assert Dotted(path)[0] == path[0][0];
  }

  /** A path of bare keys is addressable unless it is the alias. */
  lemma BareAddressable(path: seq<string>)
    requires path != [] && (forall i :: 0 <= i < |path| ==> Bare(path[i])) && path != [ALIAS]
    ensures Addressable(path)
  {
    BareEnds(path);
    forall i | 0 <= i < |path|
      ensures '.' !in path[i] && '=' !in path[i]
    {
      assert Bare(path[i]);
    }
    if |path| == 1 {
      assert path == [path[0]];
    } else {
      assert '.' !in ALIAS;
    }
  }

  predicate BareKeys(v: Value) {
    v.Table? ==> forall i :: 0 <= i < |v.entries| && !v.entries[i].value.Undefined? ==>
      Bare(v.entries[i].key) && BareKeys(v.entries[i].value)
  }

  predicate IsLeaf(v: Value) { !v.Table? || v.entries == [] }

  /** The alias does not stand for a value at the top. */
  predicate NoAlias(config: Value) {
    config.Table? ==>
      forall i :: 0 <= i < |config.entries| && config.entries[i].key == ALIAS ==> !IsLeaf(config.entries[i].value)
  }

  /** With bare keys, no alias and no delete character every line of a configuration reads back. */
  lemma {:induction false} BareFaithful(v: Value, path: seq<string>)
    requires BareKeys(v) && NoDel(v) && forall i :: 0 <= i < |path| ==> Bare(path[i])
    requires path == [] ==> !IsLeaf(v) && NoAlias(v)
    requires path == [ALIAS] ==> !IsLeaf(v)
    ensures Faithful(v, path)
  {
    if IsLeaf(v) {
      BareAddressable(path);
    } else {
      forall i | 0 <= i < |v.entries| && !v.entries[i].value.Undefined?
        ensures Faithful(v.entries[i].value, path + [v.entries[i].key])
      {
        var below := path + [v.entries[i].key];
        assert below[|path|] == v.entries[i].key;
        BareFaithful(v.entries[i].value, below);
      }
    }
  }

  // ----- what is lost -----

  lemma {:induction false} CleanChildAt(entries: seq<Entry>, i: nat)
    requires DistinctKeys(entries) && i < |entries| && !entries[i].value.Undefined?
    ensures var c := Children(CleanEntries(entries));
      entries[i].key in c && c[entries[i].key] == ToTree(Clean(entries[i].value))
  {
    if i > 0 {
      CleanChildAt(entries[1..], i - 1);
      assert entries[1..][i - 1] == entries[i];
    }
    if !entries[0].value.Undefined? {
      var rest := CleanEntries(entries[1..]);
      assert CleanEntries(entries)[0].key == entries[0].key && CleanEntries(entries)[1..] == rest;
      assert Children(CleanEntries(entries)) == Children(rest)[entries[0].key := ToTree(Clean(entries[0].value))];
    }
  }

  lemma {:induction false} FullEntriesKept(entries: seq<Entry>)
    requires Full(Table(entries))
    ensures PrunedEntries(entries) == CleanEntries(entries)
  {
    if entries != [] {
      assert forall i :: 0 <= i < |entries[1..]| ==> entries[1..][i] == entries[i + 1];
      FullEntriesKept(entries[1..]);
      if entries[0].value.Table? {
        FullEntriesKept(entries[0].value.entries);
      }
    }
  }

  /** Nothing but undefined children is lost exactly when no table below is hollow. */
  lemma {:induction false} OnlyHollowLost(v: Value)
    requires ProperTables(v)
    ensures ToTree(Pruned(v)) == ToTree(Clean(v)) <==> Full(v)
  {
    if v.Table? {
      if Full(v) {
        FullEntriesKept(v.entries);
      } else {
        var i :| 0 <= i < |v.entries| && !v.entries[i].value.Undefined?
              && (Hollow(v.entries[i].value) || !Full(v.entries[i].value));
        CleanChildAt(v.entries, i);
        ChildAt(v.entries, v.entries[i].key);
        OnlyHollowLost(v.entries[i].value);
      }
    }
  }

  // ----- the round trip -----

  /** The overrides of a configuration object, read and applied in any order, give the object again
      without undefined children and hollow tables. */
  lemma OverridesRebuild(config: Value, reordered: seq<string>, merge: (Tree, Tree) -> Tree)
    requires config.Table? && ProperTables(config) && (config.entries != [] ==> Faithful(config, []))
    requires Flatten(config, "").Ok? && multiset(reordered) == multiset(Flatten(config, "").value)
    ensures forall i :: 0 <= i < |reordered| ==> ReadOverride(reordered[i]).Ok?
    ensures forall i :: 0 <= i < |reordered| ==> ReadAll(reordered)[i].path != []
    ensures BuildLayer(ReadAll(reordered), merge) == ToTree(Pruned(config))
    ensures BuildLayer(ReadAll(reordered), merge) == ToTree(Clean(config)) <==> Full(config)
  {
    var lines := Flatten(config, "").value;
    FlattenEntriesRead(config.entries, []);
    assert Dotted([]) == "";
    AllRead(lines, WantedOf(config.entries));
    ReadAllReordered(lines, reordered);
    OnlyHollowLost(config);
    WantedRebuild(config.entries, ReadAll(reordered), merge);
  }

  /** A dotted key and a nested table give the same overrides, so no reader can tell them apart. */
  lemma DottedKeyCollides(a: string, b: string, v: Value)
    requires a != "" && b != "" && !v.Undefined?
    ensures Flatten(Table([Entry(a + "." + b, v)]), "") == Flatten(Table([Entry(a, Table([Entry(b, v)]))]), "")
  {
    var dotted, inner := [Entry(a + "." + b, v)], [Entry(b, v)];
    var nested := [Entry(a, Table(inner))];
    OneEntry(dotted, "");
    OneEntry(inner, a);
    OneEntry(nested, "");
  }

  lemma OneEntry(entries: seq<Entry>, prefix: string)
    requires |entries| == 1 && entries[0].key != "" && !entries[0].value.Undefined?
    ensures FlattenEntries(entries, prefix) == FlattenEntry(entries[0], prefix)
  {
    assert entries[1..] == [];
    var first := FlattenEntry(entries[0], prefix);
    if first.Ok? {
      assert first.value + [] == first.value;
    }
  }
}
