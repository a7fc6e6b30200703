/** Rendering is injective on all values, also on those with U+007F, whose rendering is no TOML: such
    characters are spelled out without U+007F, which commutes with rendering. */
module TomlInjective {
  import opened Wrappers
  import opened Toml
  import opened TomlRoundTrip

  const MARK: char := '\U{80}'

  function SpellChar(c: char): string {
    if c == DEL then [MARK, '1'] else if c == MARK then [MARK, '0'] else [c]
  }

  /** Every character replaced by a string. */
  function Replaced(f: char -> string, s: string): string {
    if s == [] then [] else f(s[0]) + Replaced(f, s[1..])
  }

  lemma TailAppend(s: string, t: string)
    requires s != []
    ensures s + t != [] && (s + t)[0] == s[0] && (s + t)[1..] == s[1..] + t
  {
  }

  lemma Regroup(a: string, b: string, c: string)
    ensures a + (b + c) == a + b + c
  {
  }

  lemma {:induction false} ReplacedAppend(f: char -> string, s: string, t: string)
    ensures Replaced(f, s + t) == Replaced(f, s) + Replaced(f, t)
  {
    if s == [] {
      assert s + t == t;
    } else {
      TailAppend(s, t);
      ReplacedAppend(f, s[1..], t);
      Regroup(f(s[0]), Replaced(f, s[1..]), Replaced(f, t));
    }
  }

  function Spell(s: string): string { Replaced(SpellChar, s) }

  lemma SpellAppend(s: string, t: string)
    ensures Spell(s + t) == Spell(s) + Spell(t)
  {
    ReplacedAppend(SpellChar, s, t);
  }

  lemma {:induction false} SpellNoDel(s: string)
    ensures DEL !in Spell(s)
  {
    if s != [] {
      SpellNoDel(s[1..]);
    }
  }

  lemma {:induction false} SpellPlain(s: string)
    requires DEL !in s && MARK !in s
    ensures Spell(s) == s
  {
    if s != [] {
      SpellPlain(s[1..]);
    }
  }

  lemma {:induction false} SpellInjective(s: string, t: string)
    requires Spell(s) == Spell(t)
    ensures s == t
  {
    if s != [] && t != [] {
      var a, b := SpellChar(s[0]), SpellChar(t[0]);
      assert Spell(s)[0] == a[0] && Spell(t)[0] == b[0];
      if |a| == 2 {
        assert Spell(s)[1] == a[1] && Spell(t)[1] == b[1];
      }
      assert a == b;
      assert Spell(s)[|a|..] == Spell(s[1..]) && Spell(t)[|b|..] == Spell(t[1..]);
      SpellInjective(s[1..], t[1..]);
    }
  }

  // ----- rendering commutes with spelling -----

  lemma {:induction false} EscapeReplaces(s: string)
    ensures Escape(s) == Replaced(EscapeChar, s)
  {
    if s != [] {
      EscapeReplaces(s[1..]);
    }
  }

  lemma EscapeAppend(s: string, t: string)
    ensures Escape(s + t) == Escape(s) + Escape(t)
  {
    EscapeReplaces(s);
    EscapeReplaces(t);
    EscapeReplaces(s + t);
    ReplacedAppend(EscapeChar, s, t);
  }

  lemma EscapeOne(c: char)
    ensures Escape([c]) == EscapeChar(c)
  {
    assert [c][1..] == [];
  }

  lemma SpellOne(c: char)
    ensures Spell([c]) == SpellChar(c)
  {
    assert [c][1..] == [];
    assert Replaced(SpellChar, [c]) == SpellChar(c) + Replaced(SpellChar, []);
  }

  lemma EscapeMarked(d: char)
    requires d == '0' || d == '1'
    ensures Escape([MARK, d]) == [MARK, d]
  {
    EscapeOne(MARK);
    EscapeOne(d);
    EscapeAppend([MARK], [d]);
    assert [MARK] + [d] == [MARK, d];
  }

  lemma EscapePlain(c: char)
    requires c != DEL && c != MARK
    ensures DEL !in EscapeChar(c) && MARK !in EscapeChar(c)
  {
  }

  lemma SpellEscapedChar(c: char)
    ensures Escape(SpellChar(c)) == Spell(EscapeChar(c))
  {
    if c == DEL || c == MARK {
      EscapeMarked(if c == DEL then '1' else '0');
      SpellOne(c);
    } else {
      EscapeOne(c);
      EscapePlain(c);
      SpellPlain(EscapeChar(c));
    }
  }

  lemma {:induction false} SpellEscaped(s: string)
    ensures Escape(Spell(s)) == Spell(Escape(s))
  {
    if s != [] {
      SpellEscaped(s[1..]);
      SpellEscapedChar(s[0]);
      EscapeAppend(SpellChar(s[0]), Spell(s[1..]));
      SpellAppend(EscapeChar(s[0]), Escape(s[1..]));
    }
  }

  lemma SpellBetween(open: string, s: string, close: string)
    requires DEL !in open && MARK !in open && DEL !in close && MARK !in close
    ensures Spell(open + s + close) == open + Spell(s) + close
  {
    SpellAppend(open + s, close);
    SpellAppend(open, s);
    SpellPlain(open);
    SpellPlain(close);
  }

  lemma SpellQuoted(s: string)
    ensures Quote(Spell(s)) == Spell(Quote(s))
  {
    SpellEscaped(s);
    SpellBetween("\"", Escape(s), "\"");
  }

  lemma {:induction false} SpellBare(key: string)
    ensures Bare(key) ==> Spell(key) == key
    ensures Bare(Spell(key)) ==> Bare(key)
  {
    if Bare(key) {
      SpellPlain(key);
    } else if key != [] {
      SpellNotBare(key);
    }
  }

  lemma {:induction false} SpellNotBare(key: string)
    requires exists i :: 0 <= i < |key| && !BareChar(key[i])
    ensures exists i :: 0 <= i < |Spell(key)| && !BareChar(Spell(key)[i])
  {
    var rest := Spell(key[1..]);
    if !BareChar(key[0]) {
      assert Spell(key)[0] == SpellChar(key[0])[0];
    } else {
      SpellNotBare(key[1..]);
      var i :| 0 <= i < |rest| && !BareChar(rest[i]);
      assert Spell(key)[i + 1] == rest[i];
    }
  }

  lemma SpellKey(key: string)
    ensures FormatKey(Spell(key)) == Spell(FormatKey(key))
  {
    SpellBare(key);
    SpellQuoted(key);
  }

  function SpellAll(parts: seq<string>): (r: seq<string>)
    ensures |r| == |parts|
  {
    if parts == [] then [] else [Spell(parts[0])] + SpellAll(parts[1..])
  }

  lemma {:induction false} SpellJoined(parts: seq<string>)
    ensures Join(SpellAll(parts), ", ") == Spell(Join(parts, ", "))
  {
    if |parts| > 1 {
      SpellJoined(parts[1..]);
      SpellAppend(parts[0] + ", ", Join(parts[1..], ", "));
      SpellAppend(parts[0], ", ");
      SpellPlain(", ");
      assert SpellAll(parts)[1..] == SpellAll(parts[1..]);
    }
  }

  function SpellValue(v: Value): Value
    decreases v, 1
  {
    match v
    case Str(s) => Str(Spell(s))
    case Arr(items) => Arr(SpellItems(items))
    case Table(entries) => Table(SpellEntries(entries))
    case _ => v
  }

  function SpellItems(items: seq<Value>): (r: seq<Value>)
    ensures |r| == |items| && forall i :: 0 <= i < |r| ==> r[i] == SpellValue(items[i])
    decreases items, 0
  {
    if items == [] then [] else [SpellValue(items[0])] + SpellItems(items[1..])
  }

  function SpellEntries(entries: seq<Entry>): (r: seq<Entry>)
    ensures |r| == |entries|
    ensures forall i :: 0 <= i < |r| ==> r[i] == Entry(Spell(entries[i].key), SpellValue(entries[i].value))
    decreases entries, 0
  {
    if entries == [] then []
    else [Entry(Spell(entries[0].key), SpellValue(entries[0].value))] + SpellEntries(entries[1..])
  }

  lemma SpellInt(n: int)
    ensures Spell(RenderInt(n)) == RenderInt(n)
  {
    var m := if n < 0 then -n else n;
    RenderedNat(m);
    assert DEL !in RenderNat(m) && MARK !in RenderNat(m);
    SpellPlain(RenderInt(n));
  }

  lemma SpellScalar(v: Value, path: string, at: string)
    requires Render(v, path).Ok? && !v.Arr? && !v.Table?
    ensures Render(SpellValue(v), at) == Ok(Spell(Render(v, path).value))
  {
    if v.Str? {
      SpellQuoted(v.s);
    } else if v.Int? {
      SpellInt(v.n);
    } else {
      SpellPlain(if v.b then "true" else "false");
    }
  }

  lemma {:induction false} SpellRendered(v: Value, path: string, at: string)
    requires Render(v, path).Ok?
    ensures Render(SpellValue(v), at) == Ok(Spell(Render(v, path).value))
    decreases v, 1
  {
    match v
    case Arr(items) =>
      SpellRenderedItems(items, 0, path, at);
      var parts := RenderItems(items, 0, path).value;
      SpellJoined(parts);
      SpellBetween("[", Join(parts, ", "), "]");
    case Table(entries) =>
      SpellRenderedEntries(entries, path, at);
      var parts := RenderEntries(entries, path).value;
      SpellJoined(parts);
      SpellBetween("{", Join(parts, ", "), "}");
    case _ => SpellScalar(v, path, at);
  }

  lemma {:induction false} SpellRenderedItems(items: seq<Value>, index: nat, path: string, at: string)
    requires RenderItems(items, index, path).Ok?
    ensures RenderItems(SpellItems(items), index, at) == Ok(SpellAll(RenderItems(items, index, path).value))
    decreases items, 0
  {
    if items != [] {
      SpellRendered(items[0], path + "[" + RenderNat(index) + "]", at + "[" + RenderNat(index) + "]");
      SpellRenderedItems(items[1..], index + 1, path, at);
      assert SpellItems(items)[1..] == SpellItems(items[1..]);
      assert RenderItems(items, index, path).value[1..] == RenderItems(items[1..], index + 1, path).value;
    }
  }

  lemma {:induction false} SpellRenderedEntries(entries: seq<Entry>, path: string, at: string)
    requires RenderEntries(entries, path).Ok?
    ensures RenderEntries(SpellEntries(entries), at) == Ok(SpellAll(RenderEntries(entries, path).value))
    decreases entries, 0
  {
    if entries != [] {
      var e := entries[0];
      SpellRenderedEntries(entries[1..], path, at);
      assert SpellEntries(entries)[1..] == SpellEntries(entries[1..]);
      assert Spell(e.key) != "";
      if !e.value.Undefined? {
        SpellRendered(e.value, path + "." + e.key, at + "." + Spell(e.key));
        SpellLine(e.key, Render(e.value, path + "." + e.key).value);
        assert RenderEntries(entries, path).value[1..] == RenderEntries(entries[1..], path).value;
      }
    }
  }

  lemma SpellLine(key: string, text: string)
    ensures FormatKey(Spell(key)) + " = " + Spell(text) == Spell(FormatKey(key) + " = " + text)
  {
    SpellKey(key);
    SpellAppend(FormatKey(key) + " = ", text);
    SpellAppend(FormatKey(key), " = ");
    SpellPlain(" = ");
  }

  // ----- spelling keeps values apart -----

  lemma {:induction false} SpellValueInjective(v: Value, w: Value)
    requires SpellValue(v) == SpellValue(w)
    ensures v == w
    decreases v
  {
    match v
    case Str(s) => SpellInjective(s, w.s);
    case Arr(items) =>
      forall i | 0 <= i < |items|
        ensures items[i] == w.items[i]
      {
        assert SpellItems(items)[i] == SpellItems(w.items)[i];
        SpellValueInjective(items[i], w.items[i]);
      }
    case Table(entries) =>
      forall i | 0 <= i < |entries|
        ensures entries[i] == w.entries[i]
      {
        assert SpellEntries(entries)[i] == SpellEntries(w.entries)[i];
        SpellInjective(entries[i].key, w.entries[i].key);
        SpellValueInjective(entries[i].value, w.entries[i].value);
      }
    case _ =>
  }

  lemma {:induction false} SpellClean(v: Value)
    ensures Clean(SpellValue(v)) == SpellValue(Clean(v))
    decreases v, 1
  {
    match v
    case Arr(items) => SpellCleanItems(items);
    case Table(entries) => SpellCleanEntries(entries);
    case _ =>
  }

  lemma {:induction false} SpellCleanItems(items: seq<Value>)
    ensures CleanItems(SpellItems(items)) == SpellItems(CleanItems(items))
    decreases items, 0
  {
    if items != [] {
      SpellClean(items[0]);
      SpellCleanItems(items[1..]);
      assert SpellItems(items)[1..] == SpellItems(items[1..]);
      assert CleanItems(items)[1..] == CleanItems(items[1..]);
    }
  }

  lemma {:induction false} SpellCleanEntries(entries: seq<Entry>)
    ensures CleanEntries(SpellEntries(entries)) == SpellEntries(CleanEntries(entries))
    decreases entries, 0
  {
    if entries != [] {
      SpellClean(entries[0].value);
      SpellCleanEntries(entries[1..]);
      assert SpellEntries(entries)[1..] == SpellEntries(entries[1..]);
      if !entries[0].value.Undefined? {
        assert CleanEntries(entries)[1..] == CleanEntries(entries[1..]);
      }
    }
  }

  lemma {:induction false} SpellDistinct(entries: seq<Entry>)
    requires DistinctKeys(entries)
    ensures DistinctKeys(SpellEntries(entries))
  {
    if entries != [] {
      SpellDistinct(entries[1..]);
      assert SpellEntries(entries)[1..] == SpellEntries(entries[1..]);
      var key, rest := entries[0].key, SpellEntries(entries[1..]);
      if i :| 0 <= i < |rest| && rest[i].key == Spell(key) {
        SpellInjective(entries[1..][i].key, key);
      }
    }
  }

  lemma {:induction false} SpellProper(v: Value)
    ensures ProperTables(v) ==> ProperTables(SpellValue(v))
    ensures NoDel(SpellValue(v))
    decreases v
  {
    match v
    case Str(s) => SpellNoDel(s);
    case Arr(items) =>
      forall i | 0 <= i < |items|
        ensures (ProperTables(v) ==> ProperTables(SpellItems(items)[i])) && NoDel(SpellItems(items)[i])
      {
        SpellProper(items[i]);
      }
    case Table(entries) =>
      if ProperTables(v) {
        SpellDistinct(entries);
      }
      forall i | 0 <= i < |entries|
        ensures ProperTables(v) ==> ProperTables(SpellEntries(entries)[i].value)
        ensures DEL !in SpellEntries(entries)[i].key && NoDel(SpellEntries(entries)[i].value)
      {
        SpellNoDel(entries[i].key);
        SpellProper(entries[i].value);
      }
    case _ =>
  }

  /** Two values with the same rendering are the same up to undefined children. */
  lemma RenderInjective(v: Value, w: Value, path: string, at: string)
    requires Render(v, path).Ok? && Render(w, at) == Render(v, path)
    requires ProperTables(v) && ProperTables(w)
    ensures Clean(v) == Clean(w)
  {
    var a, b := SpellValue(v), SpellValue(w);
    SpellRendered(v, path, "");
    SpellRendered(w, at, "");
    SpellProper(v);
    SpellProper(w);
    RoundTrip(a, "");
    RoundTrip(b, "");
    SpellClean(v);
    SpellClean(w);
    SpellValueInjective(Clean(v), Clean(w));
  }
}
