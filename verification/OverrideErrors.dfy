/** Which error the flattening of a configuration ends with: that of the first offending place. */
module OverrideErrors {
  import opened Wrappers
  import opened Toml
  import opened TomlErrors
  import opened Overrides

  function PathOf(prefix: string, key: string): string { if prefix != "" then prefix + "." + key else key }

  /** What is said of an offending place of a configuration; only what stands inside an array, or is no
      table, is rendered. */
  function Report(v: Value, trail: seq<nat>, prefix: string): FlattenError
    requires v.Table? && Offends(v, trail)
    decreases |trail|
  {
    var e := v.entries[trail[0]];
    if e.key == "" then EmptyOverrideKey
    else if e.value.Table? then Report(e.value, trail[1..], PathOf(prefix, e.key))
    else NotRendered(Complaint(e.value, trail[1..], PathOf(prefix, e.key)))
  }

  /** A table is flattened exactly if no place in it offends; otherwise the error is that of the first. */
  lemma {:induction false} FlattenFails(v: Value, prefix: string) returns (trail: seq<nat>)
    requires v.Table?
    ensures Flatten(v, prefix).Ok? ==> Fine(v)
    ensures Flatten(v, prefix).Err? ==> First(v, trail) && Flatten(v, prefix).error == Report(v, trail, prefix)
    decreases v, 1
  {
    trail := EntriesFlattenFails(v, 0, prefix);
    assert v.entries[0..] == v.entries;
  }

  lemma {:induction false} EntriesFlattenFails(v: Value, n: nat, prefix: string) returns (trail: seq<nat>)
    requires v.Table? && n <= |v.entries|
    ensures FlattenEntries(v.entries[n..], prefix).Ok? ==> FineFrom(v, n)
    ensures FlattenEntries(v.entries[n..], prefix).Err? ==>
      FirstFrom(v, n, trail) && FlattenEntries(v.entries[n..], prefix).error == Report(v, trail, prefix)
    decreases v, 0, |v.entries| - n
  {
    trail := [];
    if n < |v.entries| {
      var e := v.entries[n];
      assert v.entries[n..][0] == e && v.entries[n..][1..] == v.entries[n + 1..];
      if e.key == "" {
        trail := [n];
        EmptyKeyFirst(v, n);
      } else if e.value.Undefined? {
        UndefinedPassed(v, n);
        trail := EntriesFlattenFails(v, n + 1, prefix);
      } else {
        var below := EntryFlattenFails(e, prefix);
        if FlattenEntry(e, prefix).Err? {
          FirstInChild(v, n, e.value, below);
          trail := [n] + below;
          assert trail[1..] == below;
        } else {
          FineChild(v, n, e.value);
          trail := EntriesFlattenFails(v, n + 1, prefix);
        }
      }
    }
  }

  lemma {:induction false} EntryFlattenFails(e: Entry, prefix: string) returns (below: seq<nat>)
    ensures FlattenEntry(e, prefix).Ok? ==> Fine(e.value)
    ensures FlattenEntry(e, prefix).Err? ==>
      && First(e.value, below)
      && FlattenEntry(e, prefix).error
         == if e.value.Table? then Report(e.value, below, PathOf(prefix, e.key))
            else NotRendered(Complaint(e.value, below, PathOf(prefix, e.key)))
    decreases e, 2
  {
    if e.value.Table? {
      below := FlattenFails(e.value, PathOf(prefix, e.key));
    } else {
      below := RenderFails(e.value, PathOf(prefix, e.key));
    }
  }

  /** Serialising a configuration gives lines exactly if it is a table without an offending place. */
  lemma SerializesExactly(config: Value)
    ensures Flatten(config, "").Ok? <==> config.Table? && Fine(config)
    ensures !config.Table? ==> Flatten(config, "") == Err(NotAnObject)
  {
    if config.Table? {
      var trail := FlattenFails(config, "");
    }
  }
}
