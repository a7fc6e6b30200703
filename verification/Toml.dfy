/** Rendering configuration values as TOML, and a parser for the same part of TOML v1.0.0
    (sections String, Integer, Boolean, Array, Inline Table and Keys). */
module Toml {
  import opened Wrappers

  /** A configuration value as it arrives at run time. Only the first five kinds can be rendered. */
  datatype Value =
    | Str(s: string)
    | Int(n: int)
    | Bool(b: bool)
    | Arr(items: seq<Value>)
    | Table(entries: seq<Entry>)
    | Undefined
    | Null
    | NotFinite
    | Other(typeName: string)

  datatype Entry = Entry(key: string, value: Value)

  datatype RenderError =
    | EmptyKey
    | NullAt(path: string)
    | NotFiniteAt(path: string)
    | UnsupportedAt(path: string, typeName: string)

  // ----- rendering -----

  const DIGITS := "0123456789"
  const HEX := "0123456789abcdef"

  function RenderNat(n: nat): (r: string)
    ensures r != []
  {
    if n < 10 then [DIGITS[n]] else RenderNat(n / 10) + [DIGITS[n % 10]]
  }

  function RenderInt(n: int): string {
    if n < 0 then "-" + RenderNat(-n) else RenderNat(n)
  }

  /** One character of `JSON.stringify`, by section 7 of RFC 8259. */
  function EscapeChar(c: char): string {
    if c == '\"' then "\\\""
    else if c == '\\' then "\\\\"
    else if c as int == 8 then "\\b"
    else if c as int == 9 then "\\t"
    else if c as int == 10 then "\\n"
    else if c as int == 12 then "\\f"
    else if c as int == 13 then "\\r"
    else if (c as int) < 32 then "\\u00" + [HEX[c as int / 16], HEX[c as int % 16]]
    else [c]
  }

  function Escape(s: string): string {
    if s == [] then [] else EscapeChar(s[0]) + Escape(s[1..])
  }

  function Quote(s: string): string {
    "\"" + Escape(s) + "\""
  }

  predicate BareChar(c: char) {
    'A' <= c <= 'Z' || 'a' <= c <= 'z' || '0' <= c <= '9' || c == '_' || c == '-'
  }

  predicate Bare(key: string) {
    key != [] && forall i :: 0 <= i < |key| ==> BareChar(key[i])
  }

  function FormatKey(key: string): string {
    if Bare(key) then key else Quote(key)
  }

  function Join(parts: seq<string>, sep: string): string {
    if parts == [] then ""
    else if |parts| == 1 then parts[0]
    else parts[0] + sep + Join(parts[1..], sep)
  }

  function Render(v: Value, path: string): Result<string, RenderError>
    decreases v, 1
  {
    match v
    case Str(s) => Ok(Quote(s))
    case Int(n) => Ok(RenderInt(n))
    case Bool(b) => Ok(if b then "true" else "false")
    case Arr(items) =>
      var parts := RenderItems(items, 0, path);
      if parts.Err? then Err(parts.error) else Ok("[" + Join(parts.value, ", ") + "]")
    case Table(entries) =>
      var parts := RenderEntries(entries, path);
      if parts.Err? then Err(parts.error) else Ok("{" + Join(parts.value, ", ") + "}")
    case Null => Err(NullAt(path))
    case NotFinite => Err(NotFiniteAt(path))
    case Undefined => Err(UnsupportedAt(path, "undefined"))
    case Other(typeName) => Err(UnsupportedAt(path, typeName))
  }

  function RenderItems(items: seq<Value>, index: nat, path: string): Result<seq<string>, RenderError>
    decreases items, 0
  {
    if items == [] then Ok([])
    else
      var first := Render(items[0], path + "[" + RenderNat(index) + "]");
      if first.Err? then Err(first.error)
      else
        var rest := RenderItems(items[1..], index + 1, path);
        if rest.Err? then Err(rest.error) else Ok([first.value] + rest.value)
  }

  function RenderEntries(entries: seq<Entry>, path: string): Result<seq<string>, RenderError>
    decreases entries, 0
  {
    if entries == [] then Ok([])
    else if entries[0].key == "" then Err(EmptyKey)
    else if entries[0].value.Undefined? then RenderEntries(entries[1..], path)
    else
      var first := Render(entries[0].value, path + "." + entries[0].key);
      if first.Err? then Err(first.error)
      else
        var rest := RenderEntries(entries[1..], path);
        if rest.Err? then Err(rest.error)
        else Ok([FormatKey(entries[0].key) + " = " + first.value] + rest.value)
  }

  function Following<E>(done: seq<string>, r: Result<seq<string>, E>): Result<seq<string>, E> {
    if r.Err? then r else Ok(done + r.value)
  }

  lemma FollowingNothing<E>(r: Result<seq<string>, E>, done: seq<string>)
    ensures Following([], r) == r && Following<E>(done, Ok([])) == Ok(done)
  {
    if r.Ok? {
      assert [] + r.value == r.value;
    }
    assert done + [] == done;
  }

  lemma FollowingOne<E>(done: seq<string>, part: string, r: Result<seq<string>, E>)
    ensures Following(done, if r.Err? then r else Ok([part] + r.value)) == Following(done + [part], r)
  {
    if r.Ok? {
      assert done + ([part] + r.value) == done + [part] + r.value;
    }
  }

  /** Render a value, collecting the parts of an array or a table in a list. */
  method ToTomlValue(value: Value, path: string) returns (r: Result<string, RenderError>)
    ensures r == Render(value, path)
    decreases value
  {
    if value.Arr? {
      var items, parts := value.items, [];
      assert items[0..] == items;
      FollowingNothing(RenderItems(items, 0, path), []);
      for n := 0 to |items|
        invariant RenderItems(items, 0, path) == Following(parts, RenderItems(items[n..], n, path))
      {
        assert items[n..][0] == items[n] && items[n..][1..] == items[n + 1..];
        var part := ToTomlValue(items[n], path + "[" + RenderNat(n) + "]");
        if part.Err? {
          return part;
        }
        FollowingOne(parts, part.value, RenderItems(items[n + 1..], n + 1, path));
        parts := parts + [part.value];
      }
      assert items[|items|..] == [];
      FollowingNothing<RenderError>(Ok([]), parts);
      return Ok("[" + Join(parts, ", ") + "]");
    }
    if value.Table? {
      var entries, parts := value.entries, [];
      assert entries[0..] == entries;
      FollowingNothing(RenderEntries(entries, path), []);
      for n := 0 to |entries|
        invariant RenderEntries(entries, path) == Following(parts, RenderEntries(entries[n..], path))
      {
        var e := entries[n];
        assert entries[n..][0] == e && entries[n..][1..] == entries[n + 1..];
        if e.key == "" {
          return Err(EmptyKey);
        }
        if e.value.Undefined? {
          continue;
        }
        var part := ToTomlValue(e.value, path + "." + e.key);
        if part.Err? {
          return part;
        }
        FollowingOne(parts, FormatKey(e.key) + " = " + part.value, RenderEntries(entries[n + 1..], path));
        parts := parts + [FormatKey(e.key) + " = " + part.value];
      }
      assert entries[|entries|..] == [];
      FollowingNothing<RenderError>(Ok([]), parts);
      return Ok("{" + Join(parts, ", ") + "}");
    }
    r := Render(value, path);
  }

  // ----- which values have a rendering, and what it stands for -----

  /** The values that can be rendered. An undefined child is left out, but its key must not be empty. */
  predicate Renderable(v: Value) {
    match v
    case Str(_) => true
    case Int(_) => true
    case Bool(_) => true
    case Arr(items) => forall i :: 0 <= i < |items| ==> Renderable(items[i])
    case Table(entries) =>
      forall i :: 0 <= i < |entries| ==>
        entries[i].key != "" && (entries[i].value.Undefined? || Renderable(entries[i].value))
    case Null => false
    case NotFinite => false
    case Undefined => false
    case Other(_) => false
  }

  /** The value without its undefined children. */
  function Clean(v: Value): Value
    decreases v, 1
  {
    match v
    case Arr(items) => Arr(CleanItems(items))
    case Table(entries) => Table(CleanEntries(entries))
    case _ => v
  }

  function CleanItems(items: seq<Value>): seq<Value>
    decreases items, 0
  {
    if items == [] then [] else [Clean(items[0])] + CleanItems(items[1..])
  }

  function CleanEntries(entries: seq<Entry>): seq<Entry>
    decreases entries, 0
  {
    if entries == [] then []
    else if entries[0].value.Undefined? then CleanEntries(entries[1..])
    else [Entry(entries[0].key, Clean(entries[0].value))] + CleanEntries(entries[1..])
  }

  predicate KeyIn(key: string, entries: seq<Entry>) {
    exists i :: 0 <= i < |entries| && entries[i].key == key
  }

  predicate DistinctKeys(entries: seq<Entry>) {
    entries == [] || (!KeyIn(entries[0].key, entries[1..]) && DistinctKeys(entries[1..]))
  }

  /** No table has a key twice, as no object of the source language can. */
  predicate ProperTables(v: Value) {
    match v
    case Arr(items) => forall i :: 0 <= i < |items| ==> ProperTables(items[i])
    case Table(entries) =>
      DistinctKeys(entries) && forall i :: 0 <= i < |entries| ==> ProperTables(entries[i].value)
    case _ => true
  }

  // ----- parsing -----

  const DEL: char := '\U{7F}'

  predicate IsDigit(c: char) { '0' <= c <= '9' }

  predicate IsBlank(c: char) { c == ' ' || c == '\t' }

  function SkipBlanks(s: string): (r: string)
    ensures |r| <= |s|
  {
    if s != [] && IsBlank(s[0]) then SkipBlanks(s[1..]) else s
  }

  function HexValue(c: char): int {
    if '0' <= c <= '9' then c as int - '0' as int
    else if 'a' <= c <= 'f' then c as int - 'a' as int + 10
    else if 'A' <= c <= 'F' then c as int - 'A' as int + 10
    else -1
  }

  /** The character that an escape sequence stands for, after the backslash. */
  function ParseEscape(s: string): (o: Option<(char, string)>)
    ensures o.Some? ==> |o.value.1| < |s|
  {
    if s == [] then None
    else if s[0] == '\"' then Some(('\"', s[1..]))
    else if s[0] == '\\' then Some(('\\', s[1..]))
    else if s[0] == 'b' then Some((8 as char, s[1..]))
    else if s[0] == 't' then Some((9 as char, s[1..]))
    else if s[0] == 'n' then Some((10 as char, s[1..]))
    else if s[0] == 'f' then Some((12 as char, s[1..]))
    else if s[0] == 'r' then Some((13 as char, s[1..]))
    else if s[0] == 'u' && |s| >= 5 then
      var a, b, c, d := HexValue(s[1]), HexValue(s[2]), HexValue(s[3]), HexValue(s[4]);
      if a < 0 || b < 0 || c < 0 || d < 0 then None
      else
        var code := ((a * 16 + b) * 16 + c) * 16 + d;
        if 0xD800 <= code < 0xE000 || code >= 0x10000 then None else Some((code as char, s[5..]))
    else None
  }

  /** The characters a basic string may hold as they are. */
  predicate Unescaped(c: char) {
    c == '\t' || (c >= ' ' && c != DEL && c != '\"' && c != '\\')
  }

  /** A basic string, after its opening quotation mark. */
  function ParseChars(s: string): (o: Option<(string, string)>)
    ensures o.Some? ==> |o.value.1| < |s|
  {
    if s == [] then None
    else if s[0] == '\"' then Some(("", s[1..]))
    else if s[0] == '\\' then
      var e := ParseEscape(s[1..]);
      if e.None? then None
      else
        var rest := ParseChars(e.value.1);
        if rest.None? then None else Some(([e.value.0] + rest.value.0, rest.value.1))
    else if !Unescaped(s[0]) then None
    else
      var rest := ParseChars(s[1..]);
      if rest.None? then None else Some(([s[0]] + rest.value.0, rest.value.1))
  }

  /** The longest run of characters that may stand in a bare key. */
  function BareRun(s: string): (n: nat)
    ensures n <= |s| && forall i :: 0 <= i < n ==> BareChar(s[i])
    ensures n < |s| ==> !BareChar(s[n])
  {
    if s != [] && BareChar(s[0]) then 1 + BareRun(s[1..]) else 0
  }

  function ParseKey(s: string): (o: Option<(string, string)>)
    ensures o.Some? ==> |o.value.1| < |s|
  {
    if s != [] && s[0] == '\"' then ParseChars(s[1..])
    else
      var n := BareRun(s);
      if n == 0 then None else Some((s[..n], s[n..]))
  }

  function DigitRun(s: string): (n: nat)
    ensures n <= |s| && forall i :: 0 <= i < n ==> IsDigit(s[i])
    ensures n < |s| ==> !IsDigit(s[n])
  {
    if s != [] && IsDigit(s[0]) then 1 + DigitRun(s[1..]) else 0
  }

  function NatOf(s: string): (n: nat)
    requires forall i :: 0 <= i < |s| ==> IsDigit(s[i])
  {
    if s == [] then 0
    else
      assert IsDigit(s[|s| - 1]);
      NatOf(s[..|s| - 1]) * 10 + (s[|s| - 1] as int - '0' as int)
  }

  /** A decimal integer without sign: no leading zero unless it is zero itself. */
  function ParseNat(s: string): (o: Option<(nat, string)>)
    ensures o.Some? ==> |o.value.1| < |s|
  {
    var n := DigitRun(s);
    if n == 0 || (s[0] == '0' && n > 1) then None else Some((NatOf(s[..n]), s[n..]))
  }

  function ParseInt(s: string): (o: Option<(Value, string)>)
    ensures o.Some? ==> |o.value.1| < |s|
  {
    if s != [] && s[0] == '-' then
      var o := ParseNat(s[1..]);
      if o.None? then None else Some((Int(0 - o.value.0), o.value.1))
    else
      var o := ParseNat(s);
      if o.None? then None else Some((Int(o.value.0), o.value.1))
  }

  function ParseString(s: string): (o: Option<(Value, string)>)
    ensures o.Some? ==> |o.value.1| < |s|
  {
    if s == [] then None
    else
      var o := ParseChars(s[1..]);
      if o.None? then None else Some((Str(o.value.0), o.value.1))
  }

  function ParseBool(s: string): (o: Option<(Value, string)>)
    ensures o.Some? ==> |o.value.1| < |s|
  {
    if "true" <= s then Some((Bool(true), s[4..]))
    else if "false" <= s then Some((Bool(false), s[5..]))
    else None
  }

  function ParseValue(s: string): (o: Option<(Value, string)>)
    ensures o.Some? ==> |o.value.1| < |s|
    decreases |s|, 2
  {
    if s == [] then None
    else if s[0] == '\"' then ParseString(s)
    else if s[0] == '[' then ParseArray(SkipBlanks(s[1..]))
    else if s[0] == '{' then ParseTable(SkipBlanks(s[1..]))
    else if s[0] == 't' || s[0] == 'f' then ParseBool(s)
    else ParseInt(s)
  }

  /** An array, after its opening bracket. */
  function ParseArray(s: string): (o: Option<(Value, string)>)
    ensures o.Some? ==> |o.value.1| < |s|
    decreases |s|, 4
  {
    if s != [] && s[0] == ']' then Some((Arr([]), s[1..]))
    else
      var o := ParseItems(s);
      if o.None? then None else Some((Arr(o.value.0), o.value.1))
  }

  /** An inline table, after its opening brace. A repeated key makes it invalid. */
  function ParseTable(s: string): (o: Option<(Value, string)>)
    ensures o.Some? ==> |o.value.1| < |s|
    decreases |s|, 5
  {
    if s != [] && s[0] == '}' then Some((Table([]), s[1..]))
    else
      var o := ParseEntries(s);
      if o.None? || !DistinctKeys(o.value.0) then None else Some((Table(o.value.0), o.value.1))
  }

  /** The items of an array up to and including its closing bracket. */
  function ParseItems(s: string): (o: Option<(seq<Value>, string)>)
    ensures o.Some? ==> |o.value.1| < |s|
    decreases |s|, 3
  {
    var first := ParseValue(s);
    if first.None? then None else MoreItems(first.value.0, SkipBlanks(first.value.1))
  }

  function MoreItems(first: Value, s: string): (o: Option<(seq<Value>, string)>)
    ensures o.Some? ==> |o.value.1| < |s|
    decreases |s|, 0
  {
    if s == [] then None
    else if s[0] == ']' then Some(([first], s[1..]))
    else if s[0] != ',' then None
    else
      var next := SkipBlanks(s[1..]);
      if next != [] && next[0] == ']' then Some(([first], next[1..]))
      else
        var rest := ParseItems(next);
        if rest.None? then None else Some(([first] + rest.value.0, rest.value.1))
  }

  /** The entries of an inline table up to and including its closing brace. */
  function ParseEntries(s: string): (o: Option<(seq<Entry>, string)>)
    ensures o.Some? ==> |o.value.1| < |s|
    decreases |s|, 4
  {
    var key := ParseKey(s);
    if key.None? then None else ParseEntry(key.value.0, SkipBlanks(key.value.1))
  }

  function ParseEntry(key: string, s: string): (o: Option<(seq<Entry>, string)>)
    ensures o.Some? ==> |o.value.1| < |s|
    decreases |s|, 3
  {
    if s == [] || s[0] != '=' then None
    else
      var first := ParseValue(SkipBlanks(s[1..]));
      if first.None? then None else MoreEntries(Entry(key, first.value.0), SkipBlanks(first.value.1))
  }

  function MoreEntries(first: Entry, s: string): (o: Option<(seq<Entry>, string)>)
    ensures o.Some? ==> |o.value.1| < |s|
    decreases |s|, 0
  {
    if s == [] then None
    else if s[0] == '}' then Some(([first], s[1..]))
    else if s[0] != ',' then None
    else
      var rest := ParseEntries(SkipBlanks(s[1..]));
      if rest.None? then None else Some(([first] + rest.value.0, rest.value.1))
  }

  /** A whole text that is one value. */
  function Parse(text: string): Option<Value> {
    var o := ParseValue(text);
    if o.Some? && o.value.1 == [] then Some(o.value.0) else None
  }
}
