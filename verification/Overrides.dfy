/** Flattening a configuration object into `path=value` overrides, and the command line that reads
    them back and builds a configuration tree. */
module Overrides {
  import opened Wrappers
  import opened Toml

  datatype FlattenError = NotAnObject | EmptyOverrideKey | NotRendered(error: RenderError)

  // ----- flattening -----

  function Line(path: string, v: Value): Result<seq<string>, FlattenError> {
    var text := Render(v, path);
    if text.Err? then Err(NotRendered(text.error)) else Ok([path + "=" + text.value])
  }

  function Flatten(v: Value, prefix: string): Result<seq<string>, FlattenError>
    decreases v, 1
  {
    if !v.Table? then (if prefix != "" then Line(prefix, v) else Err(NotAnObject))
    else if v.entries == [] then Ok(if prefix == "" then [] else [prefix + "={}"])
    else FlattenEntries(v.entries, prefix)
  }

  function FlattenEntries(entries: seq<Entry>, prefix: string): Result<seq<string>, FlattenError>
    decreases entries, 0
  {
    if entries == [] then Ok([])
    else if entries[0].key == "" then Err(EmptyOverrideKey)
    else if entries[0].value.Undefined? then FlattenEntries(entries[1..], prefix)
    else
      var first := FlattenEntry(entries[0], prefix);
      if first.Err? then first
      else
        var rest := FlattenEntries(entries[1..], prefix);
        if rest.Err? then rest else Ok(first.value + rest.value)
  }

  function FlattenEntry(e: Entry, prefix: string): Result<seq<string>, FlattenError>
    decreases e, 2
  {
    var path := if prefix != "" then prefix + "." + e.key else e.key;
    if e.value.Table? then Flatten(e.value, path) else Line(path, e.value)
  }

  /** What the loop has pushed so far, followed by the overrides of the entries from `n` on. */
  function Pending(done: seq<string>, entries: seq<Entry>, n: nat, prefix: string): Result<seq<string>, FlattenError>
    requires n <= |entries|
  {
    Following(done, FlattenEntries(entries[n..], prefix))
  }

  lemma PendingEnds(done: seq<string>, entries: seq<Entry>, prefix: string)
    ensures Pending([], entries, 0, prefix) == FlattenEntries(entries, prefix)
    ensures Pending(done, entries, |entries|, prefix) == Ok(done)
  {
    assert entries[0..] == entries && entries[|entries|..] == [];
    FollowingNothing(FlattenEntries(entries, prefix), []);
    FollowingNothing<FlattenError>(Ok([]), done);
  }

  lemma PendingStep(done: seq<string>, entries: seq<Entry>, n: nat, prefix: string)
    requires n < |entries|
    ensures entries[n].key == "" ==> Pending(done, entries, n, prefix) == Err(EmptyOverrideKey)
    ensures entries[n].key != "" && entries[n].value.Undefined? ==>
      Pending(done, entries, n, prefix) == Pending(done, entries, n + 1, prefix)
    ensures entries[n].key != "" && !entries[n].value.Undefined? ==>
      match FlattenEntry(entries[n], prefix)
      case Ok(lines) => Pending(done, entries, n, prefix) == Pending(done + lines, entries, n + 1, prefix)
      case Err(_) => Pending(done, entries, n, prefix) == FlattenEntry(entries[n], prefix)
  {
    assert entries[n..][0] == entries[n] && entries[n..][1..] == entries[n + 1..];
    var first := FlattenEntry(entries[n], prefix);
    var rest := FlattenEntries(entries[n + 1..], prefix);
    if first.Ok? && rest.Ok? {
      assert done + (first.value + rest.value) == done + first.value + rest.value;
    }
  }

  /** The list that all calls of one serialisation push to. */
  class OverrideList {
    var items: seq<string>

    constructor ()
      ensures items == []
    {
      items := [];
    }
  }

  /** Push the overrides of one value; on an error the list keeps what was pushed before it. */
  method FlattenConfigOverrides(v: Value, prefix: string, overrides: OverrideList) returns (error: Option<FlattenError>)
    modifies overrides
    ensures match Flatten(v, prefix)
      case Ok(lines) => error == None && overrides.items == old(overrides.items) + lines
      case Err(e) => error == Some(e) && old(overrides.items) <= overrides.items
    decreases v
  {
    if !v.Table? {
      if prefix == "" {
        return Some(NotAnObject);
      }
      var text := Render(v, prefix);
      if text.Err? {
        return Some(NotRendered(text.error));
      }
      overrides.items := overrides.items + [prefix + "=" + text.value];
      return None;
    }
    if |v.entries| == 0 {
      if prefix != "" {
        overrides.items := overrides.items + [prefix + "={}"];
      }
      return None;
    }
    ghost var start := overrides.items;
    ghost var done: seq<string> := [];
    PendingEnds(done, v.entries, prefix);
    for n := 0 to |v.entries|
      invariant overrides.items == start + done
      invariant Flatten(v, prefix) == Pending(done, v.entries, n, prefix)
    {
      var e := v.entries[n];
      PendingStep(done, v.entries, n, prefix);
      if e.key == "" {
        return Some(EmptyOverrideKey);
      }
      if e.value.Undefined? {
        continue;
      }
      var path := if prefix != "" then prefix + "." + e.key else e.key;
      if e.value.Table? {
        error := FlattenConfigOverrides(e.value, path, overrides);
        if error.Some? {
          return;
        }
      } else {
        var text := Render(e.value, path);
        if text.Err? {
          return Some(NotRendered(text.error));
        }
        overrides.items := overrides.items + [path + "=" + text.value];
      }
      done := done + FlattenEntry(e, prefix).value;
    }
    PendingEnds(done, v.entries, prefix);
    return None;
  }

  /** The overrides of a configuration object, from an empty list. */
  method SerializeConfigOverrides(config: Value) returns (r: Result<seq<string>, FlattenError>)
    ensures r == Flatten(config, "")
  {
    var overrides := new OverrideList();
    var error := FlattenConfigOverrides(config, "", overrides);
    assert forall lines: seq<string> :: [] + lines == lines;
    r := if error.Some? then Err(error.value) else Ok(overrides.items);
  }

  // ----- the command line -----

  /** Unicode white space. */
  predicate IsSpace(c: char) {
    var n := c as int;
    9 <= n <= 13 || n == 0x20 || n == 0x85 || n == 0xA0 || n == 0x1680 || 0x2000 <= n <= 0x200A
    || n == 0x2028 || n == 0x2029 || n == 0x202F || n == 0x205F || n == 0x3000
  }

  function TrimStart(s: string): string {
    if s != [] && IsSpace(s[0]) then TrimStart(s[1..]) else s
  }

  function TrimEnd(s: string): string {
    if s != [] && IsSpace(s[|s| - 1]) then TrimEnd(s[..|s| - 1]) else s
  }

  function Trim(s: string): string { TrimEnd(TrimStart(s)) }

  /** Strip quotation marks from both ends. */
  function TrimQuotes(s: string): string {
    TrimQuotesEnd(TrimQuotesStart(s))
  }

  function TrimQuotesStart(s: string): string {
    if s != [] && (s[0] == '\"' || s[0] == '\'') then TrimQuotesStart(s[1..]) else s
  }

  function TrimQuotesEnd(s: string): string {
    if s != [] && (s[|s| - 1] == '\"' || s[|s| - 1] == '\'') then TrimQuotesEnd(s[..|s| - 1]) else s
  }

  /** The position of the first equals sign, or the length. */
  function EqualsAt(s: string): (n: nat)
    ensures n <= |s| && forall i :: 0 <= i < n ==> s[i] != '='
    ensures n < |s| ==> s[n] == '='
  {
    if s == [] || s[0] == '=' then 0 else 1 + EqualsAt(s[1..])
  }

  /** Split at every dot; always at least one segment. */
  function SplitDots(s: string): (r: seq<string>)
    ensures r != []
  {
    if s == [] then [""]
    else if s[0] == '.' then [""] + SplitDots(s[1..])
    else
      var rest := SplitDots(s[1..]);
      [[s[0]] + rest[0]] + rest[1..]
  }

  datatype CliError = MissingEquals | EmptyCliKey

  function Canonical(key: string): string {
    if key == "use_legacy_landlock" then "features.use_legacy_landlock" else key
  }

  /** A value that is no TOML is taken as a plain string. */
  function ReadText(text: string): Value {
    var parsed := Parse(text);
    if parsed.Some? then parsed.value else Str(TrimQuotes(text))
  }

  /** Read one override. */
  function ReadOverride(line: string): Result<Override, CliError> {
    var n := EqualsAt(line);
    if n == |line| then Err(MissingEquals)
    else
      var key, text := Trim(line[..n]), Trim(line[n + 1..]);
      if key == "" then Err(EmptyCliKey)
      else
        Ok(Override(SplitDots(Canonical(key)), ToTree(ReadText(text))))
  }

  /** A configuration tree. */
  datatype Tree = Scalar(value: Value) | Branch(children: map<string, Tree>)

  datatype Override = Override(path: seq<string>, value: Tree)

  function ToTree(v: Value): Tree
    decreases v, 1
  {
    if v.Table? then Branch(Children(v.entries)) else Scalar(v)
  }

  function Children(entries: seq<Entry>): map<string, Tree>
    decreases entries, 0
  {
    if entries == [] then map[]
    else Children(entries[1..])[entries[0].key := ToTree(entries[0].value)]
  }

  const EMPTY := Branch(map[])

  predicate IsBool(t: Tree) { t.Scalar? && t.value.Bool? }

  /** Paths of features that are either a flag or a table. */
  predicate Structured(path: seq<string>) {
    var n := |path|;
    && (n == 2 || (n == 4 && path[0] == "profiles"))
    && path[n - 2] == "features"
    && (path[n - 1] == "multi_agent_v2" || path[n - 1] == "network_proxy" || path[n - 1] == "sleep_tool")
  }

  /** A structured feature that is already set takes a new value; `merge` stands for the merging of
      two tables. */
  function Combine(old_: Tree, new_: Tree, merge: (Tree, Tree) -> Tree): Tree {
    if old_.Branch? && IsBool(new_) then Branch(old_.children["enabled" := new_])
    else if IsBool(old_) && new_.Branch? then merge(Branch(map["enabled" := old_]), new_)
    else if old_.Branch? && new_.Branch? then merge(old_, new_)
    else new_
  }

  /** Put a value at a path below `t`, which itself is at path `done`. */
  function Apply(t: Tree, done: seq<string>, path: seq<string>, value: Tree, merge: (Tree, Tree) -> Tree): Tree
    requires path != []
    decreases |path|
  {
    var children := if t.Branch? then t.children else map[];
    var here := done + [path[0]];
    var known := path[0] in children;
    if |path| == 1 then
      Branch(children[path[0] := if known && Structured(here) then Combine(children[path[0]], value, merge) else value])
    else
      var child :=
        if !known then EMPTY
        else if Structured(here) && IsBool(children[path[0]]) then Branch(map["enabled" := children[path[0]]])
        else children[path[0]];
      Branch(children[path[0] := Apply(child, here, path[1..], value, merge)])
  }

  /** Apply a list of overrides to an empty configuration. */
  function BuildLayer(overrides: seq<Override>, merge: (Tree, Tree) -> Tree): Tree
    requires forall i :: 0 <= i < |overrides| ==> overrides[i].path != []
  {
    if overrides == [] then EMPTY
    else
      var last := overrides[|overrides| - 1];
      Apply(BuildLayer(overrides[..|overrides| - 1], merge), [], last.path, last.value, merge)
  }
}
