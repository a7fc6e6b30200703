/** Parsing undoes rendering, for exactly the values without the character U+007F. */
module TomlRoundTrip {
  import opened Wrappers
  import opened Toml

  // ----- integers -----

  ghost predicate AllDigits(s: string) {
    forall i :: 0 <= i < |s| ==> IsDigit(s[i])
  }

  lemma {:induction false} RenderedNat(n: nat)
    ensures AllDigits(RenderNat(n)) && NatOf(RenderNat(n)) == n
    ensures RenderNat(n)[0] == '0' ==> |RenderNat(n)| == 1 && n == 0
  {
    if n >= 10 {
      RenderedNat(n / 10);
      var s := RenderNat(n);
      assert s[..|s| - 1] == RenderNat(n / 10);
    }
  }

  /** What follows a value must not extend an integer. */
  predicate Stops(rest: string) {
    rest == [] || !IsDigit(rest[0])
  }

  lemma {:induction false} DigitRunSplit(s: string, rest: string)
    requires AllDigits(s) && Stops(rest)
    ensures DigitRun(s + rest) == |s|
  {
    if s == [] {
      assert s + rest == rest;
    } else {
      DigitRunSplit(s[1..], rest);
      assert (s + rest)[1..] == s[1..] + rest;
    }
  }

  lemma ParseRenderedNat(n: nat, rest: string)
    requires Stops(rest)
    ensures ParseNat(RenderNat(n) + rest) == Some((n, rest))
  {
    var s := RenderNat(n);
    RenderedNat(n);
    DigitRunSplit(s, rest);
    assert (s + rest)[..|s|] == s && (s + rest)[|s|..] == rest;
  }

  lemma ParseSigned(t: string, m: nat, rest: string)
    requires t != [] && IsDigit(t[0]) && ParseNat(t + rest) == Some((m, rest))
    ensures ParseInt(t + rest) == Some((Int(m), rest))
    ensures ParseInt("-" + t + rest) == Some((Int(0 - m), rest))
  {
    assert ("-" + t + rest)[1..] == t + rest;
  }

  lemma ParseRenderedInt(n: int, rest: string)
    requires Stops(rest)
    ensures ParseInt(RenderInt(n) + rest) == Some((Int(n), rest))
    ensures RenderInt(n)[0] == '-' || IsDigit(RenderInt(n)[0])
  {
    var m: nat := if n < 0 then -n else n;
    ParseRenderedNat(m, rest);
    RenderedNat(m);
    ParseSigned(RenderNat(m), m, rest);
  }

  // ----- strings and keys -----

  lemma ParseEscapedChar(c: char, rest: string)
    requires c != DEL
    ensures var s := EscapeChar(c) + rest;
      && s[0] != '\"'
      && (if s[0] == '\\' then ParseEscape(s[1..]) == Some((c, rest))
          else Unescaped(s[0]) && s[0] == c && s[1..] == rest)
  {
    var s := EscapeChar(c) + rest;
    if |EscapeChar(c)| == 2 {
      assert s[1..] == [EscapeChar(c)[1]] + rest;
      assert s[1..][1..] == rest;
    } else if |EscapeChar(c)| == 6 {
      var n := c as int;
      assert s[1..] == ['u', '0', '0', HEX[n / 16], HEX[n % 16]] + rest;
      HexDigit(n / 16);
      HexDigit(n % 16);
      assert s[1..][5..] == rest;
    }
  }

  lemma HexDigit(d: int)
    requires 0 <= d < 16
    ensures HexValue(HEX[d]) == d
  {
  }

  lemma {:induction false} ParseEscaped(s: string, rest: string)
    requires DEL !in s
    ensures ParseChars(Escape(s) + "\"" + rest) == Some((s, rest))
  {
    if s == [] {
      assert Escape(s) + "\"" + rest == "\"" + rest;
    } else {
      var tail := Escape(s[1..]) + "\"" + rest;
      assert Escape(s) + "\"" + rest == EscapeChar(s[0]) + tail;
      ParseEscaped(s[1..], rest);
      ParseEscapedChar(s[0], tail);
      assert [s[0]] + s[1..] == s;
    }
  }

  lemma QuoteOpens(body: string, rest: string)
    ensures ("\"" + body + "\"" + rest)[0] == '\"' && ("\"" + body + "\"" + rest)[1..] == body + "\"" + rest
  {
  }

  lemma ParseQuoted(s: string, rest: string)
    requires DEL !in s
    ensures (Quote(s) + rest)[0] == '\"' && ParseChars((Quote(s) + rest)[1..]) == Some((s, rest))
  {
    ParseEscaped(s, rest);
    QuoteOpens(Escape(s), rest);
  }

  lemma {:induction false} BareRunSplit(key: string, rest: string)
    requires forall i :: 0 <= i < |key| ==> BareChar(key[i])
    requires rest != [] && !BareChar(rest[0])
    ensures BareRun(key + rest) == |key|
  {
    if key == [] {
      assert key + rest == rest;
    } else {
      BareRunSplit(key[1..], rest);
      assert (key + rest)[1..] == key[1..] + rest;
    }
  }

  lemma ParseFormattedKey(key: string, rest: string)
    requires DEL !in key && key != "" && rest != [] && !BareChar(rest[0])
    ensures ParseKey(FormatKey(key) + rest) == Some((key, rest))
    ensures FormatKey(key) != []
  {
    if Bare(key) {
      BareRunSplit(key, rest);
      assert (key + rest)[..|key|] == key && (key + rest)[|key|..] == rest;
      assert BareChar((key + rest)[0]);
    } else {
      ParseQuoted(key, rest);
    }
  }

  // ----- the first character of a rendering -----

  predicate StartsValue(c: char) {
    c == '\"' || c == '[' || c == '{' || c == 't' || c == 'f' || c == '-' || IsDigit(c)
  }

  lemma RenderedStart(v: Value, path: string)
    requires Render(v, path).Ok?
    ensures Render(v, path).value != [] && StartsValue(Render(v, path).value[0])
  {
    if v.Int? {
      RenderedNat(if v.n < 0 then -v.n else v.n);
    }
  }

  lemma FormattedKeyStart(key: string)
    requires key != ""
    ensures FormatKey(key) != [] && !IsBlank(FormatKey(key)[0]) && FormatKey(key)[0] != '}'
  {
  }

  // ----- the round trip -----

  /** No string and no key that is rendered holds the character U+007F. */
  predicate NoDel(v: Value) {
    match v
    case Str(s) => DEL !in s
    case Arr(items) => forall i :: 0 <= i < |items| ==> NoDel(items[i])
    case Table(entries) =>
      forall i :: 0 <= i < |entries| ==>
        entries[i].value.Undefined? || (DEL !in entries[i].key && NoDel(entries[i].value))
    case _ => true
  }

  lemma JoinCons(first: string, rest: seq<string>, sep: string)
    ensures Join([first] + rest, sep) == if rest == [] then first else first + sep + Join(rest, sep)
  {
    assert ([first] + rest)[1..] == rest;
  }

  lemma {:induction false} CleanDistinct(entries: seq<Entry>)
    requires DistinctKeys(entries)
    ensures DistinctKeys(CleanEntries(entries))
    ensures forall k :: KeyIn(k, CleanEntries(entries)) ==> KeyIn(k, entries)
  {
    if entries != [] {
      var tail := entries[1..];
      CleanDistinct(tail);
      var cleaned := CleanEntries(entries);
      forall k | KeyIn(k, cleaned)
        ensures KeyIn(k, entries)
      {
        var i :| 0 <= i < |cleaned| && cleaned[i].key == k;
        if entries[0].value.Undefined? || i > 0 {
          assert KeyIn(k, CleanEntries(tail)) by {
            var j := if entries[0].value.Undefined? then i else i - 1;
            assert CleanEntries(tail)[j].key == k;
          }
          var j :| 0 <= j < |tail| && tail[j].key == k;
          assert entries[j + 1].key == k;
        }
      }
      if !entries[0].value.Undefined? {
        assert cleaned[1..] == CleanEntries(tail);
      }
    }
  }

  /** Blanks before a value or a key are none. */
  lemma NoBlanks(s: string)
    requires s == [] || !IsBlank(s[0])
    ensures SkipBlanks(s) == s
    ensures SkipBlanks(" " + s) == s
  {
    assert (" " + s)[1..] == s;
  }

  lemma OpenQuote(text: string)
    requires text != [] && text[0] == '\"'
    ensures ParseValue(text) == ParseString(text)
  {
  }

  lemma OpenInt(text: string)
    requires text != [] && (text[0] == '-' || IsDigit(text[0]))
    ensures ParseValue(text) == ParseInt(text)
  {
  }

  lemma OpenBool(text: string, b: bool, rest: string)
    requires text == (if b then "true" else "false")
    ensures ParseValue(text + rest) == Some((Bool(b), rest))
  {
    assert (text + rest)[|text|..] == rest && text <= text + rest;
    assert (text + rest)[0] == if b then 't' else 'f';
  }

  lemma ParseRenderedScalar(v: Value, path: string, rest: string)
    requires v.Str? || v.Int? || v.Bool?
    requires NoDel(v) && Stops(rest)
    ensures ParseValue(Render(v, path).value + rest) == Some((v, rest))
  {
    var text := Render(v, path).value;
    match v
    case Str(s) =>
      ParseQuoted(s, rest);
      OpenQuote(Quote(s) + rest);
    case Int(n) =>
      ParseRenderedInt(n, rest);
      OpenInt(RenderInt(n) + rest);
    case Bool(b) => OpenBool(text, b, rest);
  }

  lemma OpenBracket(text: string, body: string)
    requires text == "[" + body
    ensures ParseValue(text) == ParseArray(SkipBlanks(body))
  {
    assert text[1..] == body;
  }

  lemma OpenBrace(text: string, body: string)
    requires text == "{" + body
    ensures ParseValue(text) == ParseTable(SkipBlanks(body))
  {
    assert text[1..] == body;
  }

  /** Parsing a rendered value, whatever follows it, gives the value without its undefined children. */
  lemma {:induction false} ParseRendered(v: Value, path: string, rest: string)
    requires Render(v, path).Ok? && NoDel(v) && ProperTables(v) && Stops(rest)
    ensures ParseValue(Render(v, path).value + rest) == Some((Clean(v), rest))
    decreases v, 1
  {
    var text := Render(v, path).value;
    if v.Arr? {
      var body := Join(RenderItems(v.items, 0, path).value, ", ") + ("]" + rest);
      assert text + rest == "[" + body;
      OpenBracket(text + rest, body);
      ParseRenderedArray(v.items, path, rest);
    } else if v.Table? {
      var body := Join(RenderEntries(v.entries, path).value, ", ") + ("}" + rest);
      assert text + rest == "{" + body;
      OpenBrace(text + rest, body);
      ParseRenderedTable(v.entries, path, rest);
    } else {
      ParseRenderedScalar(v, path, rest);
    }
  }

  lemma {:induction false} ParseRenderedArray(items: seq<Value>, path: string, rest: string)
    requires RenderItems(items, 0, path).Ok?
    requires forall i :: 0 <= i < |items| ==> NoDel(items[i]) && ProperTables(items[i])
    ensures ParseArray(SkipBlanks(Join(RenderItems(items, 0, path).value, ", ") + ("]" + rest)))
         == Some((Arr(CleanItems(items)), rest))
    decreases items, 1
  {
    if items == [] {
      NoBlanks("]" + rest);
      assert Join([], ", ") + ("]" + rest) == "]" + rest;
      assert ("]" + rest)[1..] == rest;
    } else {
      ParseRenderedItems(items, 0, path, rest);
      NoBlanks(Join(RenderItems(items, 0, path).value, ", ") + ("]" + rest));
    }
  }

  lemma {:induction false} ParseRenderedTable(entries: seq<Entry>, path: string, rest: string)
    requires RenderEntries(entries, path).Ok?
    requires NoDel(Table(entries)) && ProperTables(Table(entries))
    ensures ParseTable(SkipBlanks(Join(RenderEntries(entries, path).value, ", ") + ("}" + rest)))
         == Some((Table(CleanEntries(entries)), rest))
    decreases entries, 1
  {
    if RenderEntries(entries, path).value == [] {
      NothingRendered(entries, path);
      NoBlanks("}" + rest);
      assert Join([], ", ") + ("}" + rest) == "}" + rest;
      assert ("}" + rest)[1..] == rest;
    } else {
      ParseRenderedEntries(entries, path, rest);
      NoBlanks(Join(RenderEntries(entries, path).value, ", ") + ("}" + rest));
      CleanDistinct(entries);
    }
  }

  lemma {:induction false} NothingRendered(entries: seq<Entry>, path: string)
    requires RenderEntries(entries, path) == Ok([])
    ensures CleanEntries(entries) == []
  {
    if entries != [] && entries[0].value.Undefined? {
      NothingRendered(entries[1..], path);
    }
  }

  /** The text `s` starts with the items `vs` and their closing bracket; `rest` follows. */
  predicate ItemsThen(s: string, vs: seq<Value>, rest: string) {
    s != [] && !IsBlank(s[0]) && s[0] != ']' && ParseItems(s) == Some((vs, rest))
  }

  lemma LastItem(first: string, v: Value, rest: string)
    requires first != [] && StartsValue(first[0])
    requires ParseValue(first + ("]" + rest)) == Some((v, "]" + rest))
    ensures ItemsThen(first + ("]" + rest), [v], rest)
  {
    NoBlanks("]" + rest);
    assert ("]" + rest)[1..] == rest;
  }

  lemma CommaThen(more: string)
    requires more == [] || !IsBlank(more[0])
    ensures SkipBlanks(", " + more) == ", " + more && SkipBlanks((", " + more)[1..]) == more && (", " + more)[0] == ','
  {
    NoBlanks(", " + more);
    NoBlanks(more);
    assert (", " + more)[1..] == " " + more;
  }

  lemma NextItem(first: string, v: Value, more: string, vs: seq<Value>, rest: string)
    requires first != [] && StartsValue(first[0])
    requires ItemsThen(more, vs, rest)
    requires ParseValue(first + (", " + more)) == Some((v, ", " + more))
    ensures ItemsThen(first + (", " + more), [v] + vs, rest)
  {
    CommaThen(more);
  }

  lemma JoinThen(first: string, tail: seq<string>, close: string)
    ensures Join([first] + tail, ", ") + close
         == if tail == [] then first + close else first + (", " + (Join(tail, ", ") + close))
  {
    JoinCons(first, tail, ", ");
    if tail != [] {
      assert first + ", " + Join(tail, ", ") + close == first + (", " + (Join(tail, ", ") + close));
    }
  }

  lemma {:induction false} ParseRenderedItems(items: seq<Value>, index: nat, path: string, rest: string)
    requires items != [] && RenderItems(items, index, path).Ok?
    requires forall i :: 0 <= i < |items| ==> NoDel(items[i]) && ProperTables(items[i])
    ensures ItemsThen(Join(RenderItems(items, index, path).value, ", ") + ("]" + rest), CleanItems(items), rest)
    decreases items, 0
  {
    var at := path + "[" + RenderNat(index) + "]";
    var first := Render(items[0], at).value;
    var tail := RenderItems(items[1..], index + 1, path).value;
    JoinThen(first, tail, "]" + rest);
    RenderedStart(items[0], at);
    if |items| == 1 {
      ParseRendered(items[0], at, "]" + rest);
      LastItem(first, Clean(items[0]), rest);
      assert CleanItems(items) == [Clean(items[0])];
    } else {
      var more := Join(tail, ", ") + ("]" + rest);
      ParseRenderedItems(items[1..], index + 1, path, rest);
      ParseRendered(items[0], at, ", " + more);
      NextItem(first, Clean(items[0]), more, CleanItems(items[1..]), rest);
    }
  }

  predicate EntriesThen(s: string, es: seq<Entry>, rest: string) {
    s != [] && !IsBlank(s[0]) && s[0] != '}' && ParseEntries(s) == Some((es, rest))
  }

  lemma EqualsThen(key: string, text: string, v: Value, after: string)
    requires text != [] && StartsValue(text[0])
    requires ParseValue(text + after) == Some((v, after))
    requires after != [] && !IsBlank(after[0])
    ensures ParseEntry(key, "= " + (text + after)) == MoreEntries(Entry(key, v), after)
  {
    assert ("= " + (text + after))[1..] == " " + (text + after);
    NoBlanks(text + after);
    NoBlanks(after);
  }

  lemma KeyThen(key: string, eq: string)
    requires key != "" && DEL !in key && eq != [] && !IsBlank(eq[0])
    ensures ParseEntries(FormatKey(key) + (" " + eq)) == ParseEntry(key, eq)
  {
    ParseFormattedKey(key, " " + eq);
    NoBlanks(eq);
  }

  lemma EntryText(key: string, text: string, after: string)
    ensures FormatKey(key) + " = " + text + after == FormatKey(key) + (" " + ("= " + (text + after)))
  {
  }

  /** One entry of a table and what follows it. */
  lemma EntryThen(key: string, text: string, v: Value, after: string)
    requires key != "" && DEL !in key && text != [] && StartsValue(text[0])
    requires ParseValue(text + after) == Some((v, after))
    requires after != [] && !IsBlank(after[0])
    ensures ParseEntries(FormatKey(key) + " = " + text + after) == MoreEntries(Entry(key, v), after)
  {
    EntryText(key, text, after);
    KeyThen(key, "= " + (text + after));
    EqualsThen(key, text, v, after);
  }

  lemma LastEntry(first: string, e: Entry, rest: string)
    requires first != [] && !IsBlank(first[0]) && first[0] != '}'
    requires ParseEntries(first + ("}" + rest)) == MoreEntries(e, "}" + rest)
    ensures EntriesThen(first + ("}" + rest), [e], rest)
  {
    assert ("}" + rest)[1..] == rest;
  }

  lemma NextEntry(first: string, e: Entry, more: string, es: seq<Entry>, rest: string)
    requires first != [] && !IsBlank(first[0]) && first[0] != '}'
    requires EntriesThen(more, es, rest)
    requires ParseEntries(first + (", " + more)) == MoreEntries(e, ", " + more)
    ensures EntriesThen(first + (", " + more), [e] + es, rest)
  {
    NoBlanks(more);
    assert (", " + more)[1..] == " " + more;
  }

  lemma {:induction false} ParseRenderedEntries(entries: seq<Entry>, path: string, rest: string)
    requires RenderEntries(entries, path).Ok? && RenderEntries(entries, path).value != []
    requires NoDel(Table(entries)) && forall i :: 0 <= i < |entries| ==> ProperTables(entries[i].value)
    ensures EntriesThen(Join(RenderEntries(entries, path).value, ", ") + ("}" + rest), CleanEntries(entries), rest)
    decreases entries, 0
  {
    var e := entries[0];
    assert NoDel(Table(entries[1..])) by {
      assert forall i :: 0 <= i < |entries[1..]| ==> entries[1..][i] == entries[i + 1];
    }
    if e.value.Undefined? {
      ParseRenderedEntries(entries[1..], path, rest);
    } else {
      var at := path + "." + e.key;
      var text := Render(e.value, at).value;
      var tail := RenderEntries(entries[1..], path).value;
      var first := FormatKey(e.key) + " = " + text;
      var entry := Entry(e.key, Clean(e.value));
      JoinThen(first, tail, "}" + rest);
      RenderedStart(e.value, at);
      FormattedKeyStart(e.key);
      if tail == [] {
        NothingRendered(entries[1..], path);
        ParseRendered(e.value, at, "}" + rest);
        EntryThen(e.key, text, Clean(e.value), "}" + rest);
        LastEntry(first, entry, rest);
        assert CleanEntries(entries) == [entry];
      } else {
        var more := Join(tail, ", ") + ("}" + rest);
        ParseRenderedEntries(entries[1..], path, rest);
        ParseRendered(e.value, at, ", " + more);
        EntryThen(e.key, text, Clean(e.value), ", " + more);
        NextEntry(first, entry, more, CleanEntries(entries[1..]), rest);
      }
    }
  }

  // ----- what a parser accepts has no U+007F -----

  /** `rest` is a suffix of `s`, and what precedes it is free of U+007F. */
  predicate Consumed(s: string, rest: string) {
    |rest| <= |s| && s[|s| - |rest|..] == rest && DEL !in s[..|s| - |rest|]
  }

  lemma ConsumedTrans(s: string, t: string, u: string)
    requires Consumed(s, t) && Consumed(t, u)
    ensures Consumed(s, u)
  {
    var n, m := |s| - |t|, |t| - |u|;
    assert s == s[..n] + t && t == t[..m] + u;
    assert s[n + m..] == u;
    assert s[..n + m] == s[..n] + t[..m];
  }

  lemma ConsumedOne(s: string)
    requires s != [] && s[0] != DEL
    ensures Consumed(s, s[1..])
  {
  }

  lemma {:induction false} BlanksConsumed(s: string)
    ensures Consumed(s, SkipBlanks(s))
  {
    if s != [] && IsBlank(s[0]) {
      BlanksConsumed(s[1..]);
      ConsumedOne(s);
      ConsumedTrans(s, s[1..], SkipBlanks(s));
    }
  }

  lemma EscapeConsumed(s: string)
    requires ParseEscape(s).Some?
    ensures Consumed(s, ParseEscape(s).value.1)
  {
  }

  lemma {:induction false} CharsConsumed(s: string)
    requires ParseChars(s).Some?
    ensures Consumed(s, ParseChars(s).value.1)
  {
    var rest := ParseChars(s).value.1;
    ConsumedOne(s);
    if s[0] == '\\' {
      EscapeConsumed(s[1..]);
      var mid := ParseEscape(s[1..]).value.1;
      CharsConsumed(mid);
      ConsumedTrans(s, s[1..], mid);
      ConsumedTrans(s, mid, rest);
    } else if s[0] != '\"' {
      CharsConsumed(s[1..]);
      ConsumedTrans(s, s[1..], rest);
    }
  }

  lemma KeyConsumed(s: string)
    requires ParseKey(s).Some?
    ensures Consumed(s, ParseKey(s).value.1)
  {
    if s[0] == '\"' {
      ConsumedOne(s);
      CharsConsumed(s[1..]);
      ConsumedTrans(s, s[1..], ParseKey(s).value.1);
    }
  }

  lemma IntConsumed(s: string)
    requires ParseInt(s).Some?
    ensures Consumed(s, ParseInt(s).value.1)
  {
    if s[0] == '-' {
      ConsumedOne(s);
      assert Consumed(s[1..], ParseInt(s).value.1);
      ConsumedTrans(s, s[1..], ParseInt(s).value.1);
    }
  }

  lemma BoolConsumed(s: string)
    requires ParseBool(s).Some?
    ensures Consumed(s, ParseBool(s).value.1)
  {
    var word := if "true" <= s then "true" else "false";
    assert s[..|word|] == word;
  }

  lemma StringConsumed(s: string)
    requires s != [] && s[0] == '\"' && ParseString(s).Some?
    ensures Consumed(s, ParseString(s).value.1)
  {
    ConsumedOne(s);
    CharsConsumed(s[1..]);
    ConsumedTrans(s, s[1..], ParseString(s).value.1);
  }

  /** The opening character and the blanks after it. */
  lemma OpeningConsumed(s: string)
    requires s != [] && s[0] != DEL
    ensures Consumed(s, SkipBlanks(s[1..]))
  {
    ConsumedOne(s);
    BlanksConsumed(s[1..]);
    ConsumedTrans(s, s[1..], SkipBlanks(s[1..]));
  }

  lemma {:induction false} ValueConsumed(s: string)
    requires ParseValue(s).Some?
    ensures Consumed(s, ParseValue(s).value.1)
    decreases |s|, 2
  {
    if s[0] == '\"' {
      StringConsumed(s);
    } else if s[0] == '[' {
      OpeningConsumed(s);
      ArrayConsumed(SkipBlanks(s[1..]));
      ConsumedTrans(s, SkipBlanks(s[1..]), ParseArray(SkipBlanks(s[1..])).value.1);
    } else if s[0] == '{' {
      OpeningConsumed(s);
      TableConsumed(SkipBlanks(s[1..]));
      ConsumedTrans(s, SkipBlanks(s[1..]), ParseTable(SkipBlanks(s[1..])).value.1);
    } else if s[0] == 't' || s[0] == 'f' {
      BoolConsumed(s);
    } else {
      IntConsumed(s);
    }
  }

  lemma {:induction false} ArrayConsumed(s: string)
    requires ParseArray(s).Some?
    ensures Consumed(s, ParseArray(s).value.1)
    decreases |s|, 4
  {
    if s != [] && s[0] == ']' {
      ConsumedOne(s);
    } else {
      ItemsConsumed(s);
    }
  }

  lemma {:induction false} TableConsumed(s: string)
    requires ParseTable(s).Some?
    ensures Consumed(s, ParseTable(s).value.1)
    decreases |s|, 5
  {
    if s != [] && s[0] == '}' {
      ConsumedOne(s);
    } else {
      EntriesConsumed(s);
    }
  }

  lemma {:induction false} ItemsConsumed(s: string)
    requires ParseItems(s).Some?
    ensures Consumed(s, ParseItems(s).value.1)
    decreases |s|, 3
  {
    ValueConsumed(s);
    var after := ParseValue(s).value.1;
    BlanksConsumed(after);
    ConsumedTrans(s, after, SkipBlanks(after));
    MoreItemsConsumed(ParseValue(s).value.0, SkipBlanks(after));
    ConsumedTrans(s, SkipBlanks(after), ParseItems(s).value.1);
  }

  lemma {:induction false} MoreItemsConsumed(v: Value, s: string)
    requires MoreItems(v, s).Some?
    ensures Consumed(s, MoreItems(v, s).value.1)
    decreases |s|, 0
  {
    ConsumedOne(s);
    if s[0] != ']' {
      BlanksConsumed(s[1..]);
      var next := SkipBlanks(s[1..]);
      ConsumedTrans(s, s[1..], next);
      if next != [] && next[0] == ']' {
        ConsumedOne(next);
      } else {
        ItemsConsumed(next);
      }
      ConsumedTrans(s, next, MoreItems(v, s).value.1);
    }
  }

  lemma {:induction false} EntriesConsumed(s: string)
    requires ParseEntries(s).Some?
    ensures Consumed(s, ParseEntries(s).value.1)
    decreases |s|, 4
  {
    KeyConsumed(s);
    var after := ParseKey(s).value.1;
    BlanksConsumed(after);
    ConsumedTrans(s, after, SkipBlanks(after));
    EntryConsumed(ParseKey(s).value.0, SkipBlanks(after));
    ConsumedTrans(s, SkipBlanks(after), ParseEntries(s).value.1);
  }

  lemma {:induction false} EntryConsumed(key: string, s: string)
    requires ParseEntry(key, s).Some?
    ensures Consumed(s, ParseEntry(key, s).value.1)
    decreases |s|, 3
  {
    ConsumedOne(s);
    BlanksConsumed(s[1..]);
    var start := SkipBlanks(s[1..]);
    ConsumedTrans(s, s[1..], start);
    ValueConsumed(start);
    var after := ParseValue(start).value.1;
    ConsumedTrans(s, start, after);
    BlanksConsumed(after);
    ConsumedTrans(s, after, SkipBlanks(after));
    MoreEntriesConsumed(Entry(key, ParseValue(start).value.0), SkipBlanks(after));
    ConsumedTrans(s, SkipBlanks(after), ParseEntry(key, s).value.1);
  }

  lemma {:induction false} MoreEntriesConsumed(e: Entry, s: string)
    requires MoreEntries(e, s).Some?
    ensures Consumed(s, MoreEntries(e, s).value.1)
    decreases |s|, 0
  {
    ConsumedOne(s);
    if s[0] != '}' {
      BlanksConsumed(s[1..]);
      var next := SkipBlanks(s[1..]);
      ConsumedTrans(s, s[1..], next);
      EntriesConsumed(next);
      ConsumedTrans(s, next, MoreEntries(e, s).value.1);
    }
  }

  // ----- a rendering keeps U+007F -----

  lemma {:induction false} EscapeKeepsDel(s: string)
    requires DEL in s
    ensures DEL in Escape(s)
  {
    if s[0] == DEL {
      assert EscapeChar(s[0]) == [DEL];
      assert Escape(s)[0] == DEL;
    } else {
      EscapeKeepsDel(s[1..]);
      assert Escape(s) == EscapeChar(s[0]) + Escape(s[1..]);
    }
  }

  lemma FormatKeepsDel(key: string)
    requires DEL in key
    ensures DEL in FormatKey(key)
  {
    assert !Bare(key);
    EscapeKeepsDel(key);
    assert Quote(key) == "\"" + Escape(key) + "\"";
  }

  lemma {:induction false} JoinKeeps(parts: seq<string>, sep: string, i: nat, c: char)
    requires i < |parts| && c in parts[i]
    ensures c in Join(parts, sep)
  {
    if |parts| > 1 {
      if i > 0 {
        JoinKeeps(parts[1..], sep, i - 1, c);
      }
      assert Join(parts, sep) == parts[0] + sep + Join(parts[1..], sep);
    }
  }

  lemma {:induction false} RenderKeepsDel(v: Value, path: string)
    requires Render(v, path).Ok? && !NoDel(v)
    ensures DEL in Render(v, path).value
    decreases v, 1
  {
    match v
    case Str(s) =>
      EscapeKeepsDel(s);
      assert Quote(s) == "\"" + Escape(s) + "\"";
    case Arr(items) =>
      var i := ItemsKeepDel(items, 0, path);
      var parts := RenderItems(items, 0, path).value;
      JoinKeeps(parts, ", ", i, DEL);
      assert Render(v, path).value == "[" + Join(parts, ", ") + "]";
    case Table(entries) =>
      var i := EntriesKeepDel(entries, path);
      var parts := RenderEntries(entries, path).value;
      JoinKeeps(parts, ", ", i, DEL);
      assert Render(v, path).value == "{" + Join(parts, ", ") + "}";
  }

  lemma {:induction false} ItemsKeepDel(items: seq<Value>, index: nat, path: string) returns (i: nat)
    requires RenderItems(items, index, path).Ok? && !NoDel(Arr(items))
    ensures i < |RenderItems(items, index, path).value| && DEL in RenderItems(items, index, path).value[i]
    decreases items, 0
  {
    var at := path + "[" + RenderNat(index) + "]";
    if !NoDel(items[0]) {
      RenderKeepsDel(items[0], at);
      i := 0;
    } else {
      assert !NoDel(Arr(items[1..])) by {
        var j :| 0 <= j < |items| && !NoDel(items[j]);
        assert items[1..][j - 1] == items[j];
      }
      i := ItemsKeepDel(items[1..], index + 1, path);
      i := i + 1;
    }
  }

  lemma {:induction false} EntriesKeepDel(entries: seq<Entry>, path: string) returns (i: nat)
    requires RenderEntries(entries, path).Ok? && !NoDel(Table(entries))
    ensures i < |RenderEntries(entries, path).value| && DEL in RenderEntries(entries, path).value[i]
    decreases entries, 0
  {
    var e := entries[0];
    if !e.value.Undefined? && (DEL in e.key || !NoDel(e.value)) {
      var text := Render(e.value, path + "." + e.key).value;
      if DEL in e.key {
        FormatKeepsDel(e.key);
      } else {
        RenderKeepsDel(e.value, path + "." + e.key);
      }
      i := 0;
      assert RenderEntries(entries, path).value[0] == FormatKey(e.key) + " = " + text;
    } else {
      assert !NoDel(Table(entries[1..])) by {
        var j :| 0 <= j < |entries|
          && !(entries[j].value.Undefined? || (DEL !in entries[j].key && NoDel(entries[j].value)));
        assert entries[1..][j - 1] == entries[j];
      }
      i := EntriesKeepDel(entries[1..], path);
      if !e.value.Undefined? {
        i := i + 1;
      }
    }
  }

  // ----- the theorems -----

  /** Parsing a rendering returns the value, less its undefined children, exactly when no rendered
      string or key holds the character U+007F; otherwise the text is no TOML at all. */
  lemma RoundTrip(v: Value, path: string)
    requires Render(v, path).Ok? && ProperTables(v)
    ensures NoDel(v) ==> Parse(Render(v, path).value) == Some(Clean(v))
    ensures !NoDel(v) ==> Parse(Render(v, path).value) == None
  {
    var text := Render(v, path).value;
    if NoDel(v) {
      ParseRendered(v, path, []);
      assert text + [] == text;
    } else if Parse(text).Some? {
      RenderKeepsDel(v, path);
      ValueConsumed(text);
    }
  }

  /** Exactly the renderable values are rendered, wherever in a configuration they stand. */
  lemma {:induction false} RendersExactly(v: Value, path: string)
    ensures Render(v, path).Ok? <==> Renderable(v)
    decreases v, 1
  {
    match v
    case Arr(items) => ItemsRenderExactly(items, 0, path);
    case Table(entries) => EntriesRenderExactly(entries, path);
    case _ =>
  }

  lemma {:induction false} ItemsRenderExactly(items: seq<Value>, index: nat, path: string)
    ensures RenderItems(items, index, path).Ok? <==> Renderable(Arr(items))
    decreases items, 0
  {
    if items != [] {
      RendersExactly(items[0], path + "[" + RenderNat(index) + "]");
      ItemsRenderExactly(items[1..], index + 1, path);
      assert forall i :: 1 <= i < |items| ==> items[1..][i - 1] == items[i];
    }
  }

  lemma {:induction false} EntriesRenderExactly(entries: seq<Entry>, path: string)
    ensures RenderEntries(entries, path).Ok? <==> Renderable(Table(entries))
    decreases entries, 0
  {
    if entries != [] {
      RendersExactly(entries[0].value, path + "." + entries[0].key);
      EntriesRenderExactly(entries[1..], path);
      assert forall i :: 1 <= i < |entries| ==> entries[1..][i - 1] == entries[i];
    }
  }
}
