/** Which error a rendering ends with: that of the first place in the value that cannot be rendered. */
module TomlErrors {
  import opened Wrappers
  import opened Toml
  import opened Trails

  /** At this place stands something that cannot be rendered: a value of no TOML kind, or an empty key. */
  predicate Offends(v: Value, trail: seq<nat>)
    decreases |trail|
  {
    match v
    case Arr(items) => trail != [] && trail[0] < |items| && Offends(items[trail[0]], trail[1..])
    case Table(entries) =>
      && trail != [] && trail[0] < |entries|
      && if entries[trail[0]].key == "" then |trail| == 1
         else !entries[trail[0]].value.Undefined? && Offends(entries[trail[0]].value, trail[1..])
    case Str(_) => false
    case Int(_) => false
    case Bool(_) => false
    case _ => trail == []
  }

  /** What is said of the place: its path, in dots and brackets, and what stands there. */
  function Complaint(v: Value, trail: seq<nat>, path: string): RenderError
    requires Offends(v, trail)
    decreases |trail|
  {
    match v
    case Arr(items) => Complaint(items[trail[0]], trail[1..], path + "[" + RenderNat(trail[0]) + "]")
    case Table(entries) =>
      var e := entries[trail[0]];
      if e.key == "" then EmptyKey else Complaint(e.value, trail[1..], path + "." + e.key)
    case Null => NullAt(path)
    case NotFinite => NotFiniteAt(path)
    case Undefined => UnsupportedAt(path, "undefined")
    case Other(typeName) => UnsupportedAt(path, typeName)
  }

  predicate AtOrAfter(trail: seq<nat>, other: seq<nat>) { other == trail || Precedes(trail, other) }

  /** The first offending place whose trail begins at child `n` or later. */
  ghost predicate FirstFrom(v: Value, n: nat, trail: seq<nat>) {
    && Offends(v, trail) && trail != [] && trail[0] >= n
    && forall other :: Offends(v, other) && other != [] && other[0] >= n ==> AtOrAfter(trail, other)
  }

  ghost predicate First(v: Value, trail: seq<nat>) {
    Offends(v, trail) && forall other :: Offends(v, other) ==> AtOrAfter(trail, other)
  }

  /** Nothing offends from child `n` on. */
  ghost predicate FineFrom(v: Value, n: nat) {
    forall trail :: Offends(v, trail) && trail != [] ==> trail[0] < n
  }

  ghost predicate Fine(v: Value) { forall trail :: !Offends(v, trail) }

  // ----- one child -----

  lemma StepIn(n: nat, a: seq<nat>, b: seq<nat>)
    ensures AtOrAfter([n] + a, [n] + b) <==> AtOrAfter(a, b)
  {
    StepDown(n, a, b);
    if [n] + a == [n] + b {
      assert a == ([n] + a)[1..] && b == ([n] + b)[1..];
    }
  }

  /** The child at `n` of an array or a table, when it is rendered. */
  predicate Child(v: Value, n: nat, child: Value) {
    || (v.Arr? && n < |v.items| && v.items[n] == child)
    || (v.Table? && n < |v.entries| && v.entries[n].key != "" && v.entries[n].value == child && !child.Undefined?)
  }

  lemma OffendsIn(v: Value, n: nat, child: Value, trail: seq<nat>)
    requires Child(v, n, child)
    ensures Offends(v, [n] + trail) <==> Offends(child, trail)
  {
    assert ([n] + trail)[1..] == trail;
  }

  /** The first offence of a child is the first of its parent from there on. */
  lemma FirstInChild(v: Value, n: nat, child: Value, below: seq<nat>)
    requires Child(v, n, child) && First(child, below)
    ensures FirstFrom(v, n, [n] + below)
  {
    OffendsIn(v, n, child, below);
    forall other | Offends(v, other) && other != [] && other[0] >= n
      ensures AtOrAfter([n] + below, other)
    {
      if other[0] == n {
        assert other == [n] + other[1..];
        OffendsIn(v, n, child, other[1..]);
        StepIn(n, below, other[1..]);
      }
    }
  }

  /** A child without an offence is passed over. */
  lemma FineChild(v: Value, n: nat, child: Value)
    requires Child(v, n, child) && Fine(child)
    ensures FineFrom(v, n + 1) ==> FineFrom(v, n)
    ensures forall trail :: FirstFrom(v, n + 1, trail) ==> FirstFrom(v, n, trail)
  {
    forall other | Offends(v, other) && other != []
      ensures other[0] != n
    {
      if other[0] == n {
        assert other == [n] + other[1..];
        OffendsIn(v, n, child, other[1..]);
      }
    }
  }

  // ----- the first error -----

  lemma {:induction false} RenderFails(v: Value, path: string) returns (trail: seq<nat>)
    ensures Render(v, path).Ok? ==> Fine(v)
    ensures Render(v, path).Err? ==> First(v, trail) && Render(v, path).error == Complaint(v, trail, path)
    decreases v, 1
  {
    trail := [];
    match v
    case Arr(items) => trail := ItemsFail(v, 0, path);
    case Table(entries) => trail := EntriesFail(v, 0, path);
    case _ =>
  }

  lemma {:induction false} ItemsFail(v: Value, n: nat, path: string) returns (trail: seq<nat>)
    requires v.Arr? && n <= |v.items|
    ensures RenderItems(v.items[n..], n, path).Ok? ==> FineFrom(v, n)
    ensures RenderItems(v.items[n..], n, path).Err? ==>
      FirstFrom(v, n, trail) && RenderItems(v.items[n..], n, path).error == Complaint(v, trail, path)
    decreases v, 0, |v.items| - n
  {
    trail := [];
    if n < |v.items| {
      var child, place := v.items[n], path + "[" + RenderNat(n) + "]";
      assert v.items[n..][0] == child && v.items[n..][1..] == v.items[n + 1..];
      var below := RenderFails(child, place);
      if Render(child, place).Err? {
        FirstInChild(v, n, child, below);
        trail := [n] + below;
        assert trail[1..] == below;
      } else {
        FineChild(v, n, child);
        trail := ItemsFail(v, n + 1, path);
      }
    }
  }

  lemma {:induction false} EntriesFail(v: Value, n: nat, path: string) returns (trail: seq<nat>)
    requires v.Table? && n <= |v.entries|
    ensures RenderEntries(v.entries[n..], path).Ok? ==> FineFrom(v, n)
    ensures RenderEntries(v.entries[n..], path).Err? ==>
      FirstFrom(v, n, trail) && RenderEntries(v.entries[n..], path).error == Complaint(v, trail, path)
    decreases v, 0, |v.entries| - n
  {
    trail := [];
    if n < |v.entries| {
      var e := v.entries[n];
      assert v.entries[n..][0] == e && v.entries[n..][1..] == v.entries[n + 1..];
      if e.key == "" {
        trail := [n];
        EmptyKeyFirst(v, n);
      } else if e.value.Undefined? {
        UndefinedPassed(v, n);
        trail := EntriesFail(v, n + 1, path);
      } else {
        var below := RenderFails(e.value, path + "." + e.key);
        if Render(e.value, path + "." + e.key).Err? {
          FirstInChild(v, n, e.value, below);
          trail := [n] + below;
          assert trail[1..] == below;
        } else {
          FineChild(v, n, e.value);
          trail := EntriesFail(v, n + 1, path);
        }
      }
    }
  }

  lemma EmptyKeyFirst(v: Value, n: nat)
    requires v.Table? && n < |v.entries| && v.entries[n].key == ""
    ensures FirstFrom(v, n, [n])
  {
    forall other | Offends(v, other) && other != [] && other[0] >= n
      ensures AtOrAfter([n], other)
    {
      if other[0] == n {
        assert other == [n];
      }
    }
  }

  lemma UndefinedPassed(v: Value, n: nat)
    requires v.Table? && n < |v.entries| && v.entries[n].key != "" && v.entries[n].value.Undefined?
    ensures FineFrom(v, n + 1) ==> FineFrom(v, n)
    ensures forall trail :: FirstFrom(v, n + 1, trail) ==> FirstFrom(v, n, trail)
  {
    assert forall other :: Offends(v, other) && other != [] ==> other[0] != n;
  }
}
