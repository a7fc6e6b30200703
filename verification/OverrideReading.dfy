/** What the command line makes of an override, for every line. */
module OverrideReading {
  import opened Wrappers
  import opened Toml
  import opened Overrides
  import opened OverridesRoundTrip

  predicate IsQuote(c: char) { c == '\"' || c == '\'' }

  predicate AllSpaces(s: string) { forall i :: 0 <= i < |s| ==> IsSpace(s[i]) }

  predicate AllQuotes(s: string) { forall i :: 0 <= i < |s| ==> IsQuote(s[i]) }

  /** `core` is `s` without the white space around it. */
  ghost predicate Stripped(s: string, core: string) {
    && (exists before, after :: s == before + core + after && AllSpaces(before) && AllSpaces(after))
    && (core != "" ==> !IsSpace(core[0]) && !IsSpace(core[|core| - 1]))
  }

  /** `core` is `s` without the quotation marks around it. */
  ghost predicate Unquoted(s: string, core: string) {
    && (exists before, after :: s == before + core + after && AllQuotes(before) && AllQuotes(after))
    && (core != "" ==> !IsQuote(core[0]) && !IsQuote(core[|core| - 1]))
  }

  lemma {:induction false} SpacesBefore(s: string) returns (before: string)
    ensures AllSpaces(before) && s == before + TrimStart(s)
    ensures TrimStart(s) != "" ==> !IsSpace(TrimStart(s)[0])
  {
    before := "";
    if s != [] && IsSpace(s[0]) {
      before := SpacesBefore(s[1..]);
      before := [s[0]] + before;
    }
  }

  lemma {:induction false} SpacesAfter(s: string) returns (after: string)
    ensures AllSpaces(after) && s == TrimEnd(s) + after
    ensures TrimEnd(s) != "" ==> !IsSpace(TrimEnd(s)[|TrimEnd(s)| - 1]) && TrimEnd(s)[0] == s[0]
  {
    after := "";
    if s != [] && IsSpace(s[|s| - 1]) {
      after := SpacesAfter(s[..|s| - 1]);
      after := after + [s[|s| - 1]];
    }
  }

  lemma TrimStrips(s: string)
    ensures Stripped(s, Trim(s))
  {
    var before := SpacesBefore(s);
    var after := SpacesAfter(TrimStart(s));
    assert s == before + Trim(s) + after;
  }

  lemma {:induction false} QuotesBefore(s: string) returns (before: string)
    ensures AllQuotes(before) && s == before + TrimQuotesStart(s)
    ensures TrimQuotesStart(s) != "" ==> !IsQuote(TrimQuotesStart(s)[0])
  {
    before := "";
    if s != [] && IsQuote(s[0]) {
      before := QuotesBefore(s[1..]);
      before := [s[0]] + before;
    }
  }

  lemma {:induction false} QuotesAfter(s: string) returns (after: string)
    ensures AllQuotes(after) && s == TrimQuotesEnd(s) + after
    ensures TrimQuotesEnd(s) != "" ==>
      !IsQuote(TrimQuotesEnd(s)[|TrimQuotesEnd(s)| - 1]) && TrimQuotesEnd(s)[0] == s[0]
  {
    after := "";
    if s != [] && IsQuote(s[|s| - 1]) {
      after := QuotesAfter(s[..|s| - 1]);
      after := after + [s[|s| - 1]];
    }
  }

  lemma QuotesStrip(s: string)
    ensures Unquoted(s, TrimQuotes(s))
  {
    var before := QuotesBefore(s);
    var after := QuotesAfter(TrimQuotesStart(s));
    assert s == before + TrimQuotes(s) + after;
  }

  lemma {:induction false} FirstEqualsSign(key: string, text: string)
    requires '=' !in key
    ensures EqualsAt(key + "=" + text) == |key|
  {
    var line := key + "=" + text;
    assert line[|key|] == '=' && forall i :: 0 <= i < |key| ==> line[i] == key[i];
  }

  /** The path of a key: its segments between dots; one old name stands for a feature. */
  predicate PathRead(key: string, path: seq<string>) {
    if key == "use_legacy_landlock" then path == ["features", "use_legacy_landlock"]
    else Dotted(path) == key && path != [] && forall i :: 0 <= i < |path| ==> '.' !in path[i]
  }

  lemma PathReads(key: string)
    ensures PathRead(key, SplitDots(Canonical(key)))
  {
    if key == "use_legacy_landlock" {
      var path := ["features", "use_legacy_landlock"];
      assert Canonical(key) == "features" + "." + "use_legacy_landlock";
      assert path[1..] == ["use_legacy_landlock"];
      assert Dotted(path) == Canonical(key);
      SplitDotted(path);
    } else {
      DottedSplit(key);
    }
  }

  /** The value of a text: what it is as TOML, or else the text without quotation marks around it. */
  ghost predicate ValueRead(text: string, value: Tree) {
    if Parse(text).Some? then value == ToTree(Parse(text).value)
    else exists core :: Unquoted(text, core) && value == Scalar(Str(core))
  }

  lemma ValueReads(text: string)
    ensures ValueRead(text, ToTree(ReadText(text)))
  {
    if Parse(text).None? {
      QuotesStrip(text);
    }
  }

  /** A line is split at its first equals sign. The key and the text lose the white space around them; an
      empty key is refused. */
  lemma LineRead(key: string, text: string) returns (k: string, t: string)
    requires '=' !in key
    ensures Stripped(key, k) && Stripped(text, t)
    ensures var r := ReadOverride(key + "=" + text);
      if k == "" then r == Err(EmptyCliKey) else r.Ok? && PathRead(k, r.value.path) && ValueRead(t, r.value.value)
  {
    var line := key + "=" + text;
    k, t := Trim(key), Trim(text);
    TrimStrips(key);
    TrimStrips(text);
    FirstEqualsSign(key, text);
    assert line[..|key|] == key && line[|key| + 1..] == text;
    PathReads(k);
    ValueReads(t);
  }

  /** A line without an equals sign is refused. */
  lemma NoEqualsSign(line: string)
    ensures ReadOverride(line) == Err(MissingEquals) <==> '=' !in line
  {
  }

  /** The features that are a flag or a table: three names, of the configuration or of a profile. */
  lemma StructuredMeans(path: seq<string>)
    ensures Structured(path) <==>
      || (|path| == 2 && path[0] == "features" && path[1] in ["multi_agent_v2", "network_proxy", "sleep_tool"])
      || (|path| == 4 && path[0] == "profiles" && path[2] == "features"
          && path[3] in ["multi_agent_v2", "network_proxy", "sleep_tool"])
  {
  }
}
