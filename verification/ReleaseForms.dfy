/** The accepted spellings of a version, their normal forms, and the tags, as strings. */
module ReleaseForms {
  import opened Wrappers
  import opened Release

  predicate Spaces(s: string) { forall i :: 0 <= i < |s| ==> IsSpace(s[i]) }

  predicate IsPrefix(s: string) { s == "" || s == "v" || s == "rust-v" }

  predicate IsDot(s: string) { s == "" || s == "." }

  // ----- white space and prefixes -----

  lemma {:induction false} StripLeftSpaces(w: string, s: string)
    requires Spaces(w) && s != [] && !IsSpace(s[0])
    ensures StripLeft(w + s) == s
  {
    if w == [] {
      assert w + s == s;
    } else {
      StripLeftSpaces(w[1..], s);
      assert (w + s)[1..] == w[1..] + s && (w + s)[0] == w[0];
    }
  }

  lemma {:induction false} StripRightSpaces(s: string, w: string)
    requires Spaces(w) && s != [] && !IsSpace(s[|s| - 1])
    ensures StripRight(s + w) == s
  {
    if w == [] {
      assert s + w == s;
    } else {
      var n := |w| - 1;
      StripRightSpaces(s, w[..n]);
      assert (s + w)[..|s + w| - 1] == s + w[..n] && (s + w)[|s + w| - 1] == w[n];
    }
  }

  /** White space around a version and one of its prefixes are dropped. */
  lemma Stripped(before: string, prefix: string, bare: string, after: string)
    requires Spaces(before) && Spaces(after) && IsPrefix(prefix)
    requires bare != [] && IsDigit(bare[0]) && IsDigit(bare[|bare| - 1])
    ensures WithoutPrefix(Strip(before + (prefix + bare + after))) == bare
  {
    var s := prefix + bare;
    LastOf(prefix, bare);
    assert (s + after)[0] == s[0];
    StripLeftSpaces(before, s + after);
    StripRightSpaces(s, after);
    if prefix == "v" {
      assert s[0] == 'v' && s[1..] == bare && !("rust-v" <= s);
    } else if prefix == "rust-v" {
      TagPrefix(bare);
    } else {
      assert s == bare;
      NoPrefix(bare);
    }
  }

  // ----- markers -----

  lemma ShortenMarked(base: string, name: string, dot: string, letter: string, n: string)
    requires IsDot(dot) && Digits(n) && name != [] && name[|name| - 1] != '.' && !IsDigit(name[|name| - 1])
    ensures Shorten(base + name + dot + n, name, letter) == base + letter + n
  {
    if dot == "." {
      ShortenNamed(base, name, letter, n);
    } else {
      assert base + name + dot == base + name;
      LastOf(base, name);
      NumberSplits(base + name, n);
      Ends(base, name);
      assert (name + ".")[|name|] == '.';
      EndsDiffer(base + name, name + ".", 1);
    }
  }

  /** A marker that is not the one looked for is left alone. */
  lemma ShortenUnmarked(head: string, dot: string, n: string, name: string, letter: string)
    requires IsDot(dot) && Digits(n) && head != [] && !IsDigit(head[|head| - 1]) && head[|head| - 1] != '.'
    requires name != [] && name[|name| - 1] != '.' && name[|name| - 1] != head[|head| - 1]
    ensures Shorten(head + dot + n, name, letter) == head + dot + n
  {
    var s := head + dot;
    NumberSplits(s, n);
    assert (name + ".")[|name| - 1] == name[|name| - 1] && (name + ".")[|name|] == '.';
    if dot == "." {
      assert s[|s| - 2] == head[|head| - 1];
      EndsDiffer(s, name, 1);
      EndsDiffer(s, name + ".", 2);
    } else {
      assert s == head;
      EndsDiffer(s, name, 1);
      EndsDiffer(s, name + ".", 1);
    }
  }

  /** A number alone after a marker is not a hotfix. */
  lemma NotHotfix(head: string, dot: string, n: string)
    requires IsDot(dot) && Digits(n) && head != [] && !IsDigit(head[|head| - 1]) && head[|head| - 1] != '.'
    ensures ShortenHotfix(head + dot + n) == head + dot + n
  {
    if dot == "." {
      assert (head + ".")[|head| - 1] == head[|head| - 1];
      NoHotfix(head + ".", n);
    } else {
      assert head + dot == head;
      NumberSplits(head, n);
      EndsDiffer(head, ".", 1);
    }
  }

  // ----- rewriting to the normal form -----

  lemma RewriteMarkedAlpha(base: string, dot: string, n: string)
    requires IsBase(base) && IsDot(dot) && Digits(n)
    ensures Rewrite(base + "-alpha" + dot + n) == base + "a" + n
  {
    LastOf(base, "-alpha");
    NotHotfix(base + "-alpha", dot, n);
    ShortenMarked(base, "-alpha", dot, "a", n);
    ShowNumbered(base, Alpha, n);
    ShortenRest(base + "a" + n);
  }

  lemma RewriteMarkedBeta(base: string, dot: string, n: string)
    requires IsBase(base) && IsDot(dot) && Digits(n)
    ensures Rewrite(base + "-beta" + dot + n) == base + "b" + n
  {
    LastOf(base, "-beta");
    NotHotfix(base + "-beta", dot, n);
    BetaNotAlpha(base, dot, n);
    ShortenMarked(base, "-beta", dot, "b", n);
    ShowNumbered(base, Beta, n);
    ShortenRest(base + "b" + n);
  }

  /** Both names end in the same letter and differ before it. */
  lemma BetaNotAlpha(base: string, dot: string, n: string)
    requires IsDot(dot) && Digits(n)
    ensures Shorten(base + "-beta" + dot + n, "-alpha", "a") == base + "-beta" + dot + n
  {
    var head, s := base + "-beta", base + "-beta" + dot;
    assert head[|head| - 2] == 't' && head[|head| - 1] == 'a';
    NumberSplits(s, n);
    assert "-alpha."[4] == 'h' && "-alpha"[4] == 'h';
    if dot == "." {
      assert s[|s| - 1] == '.' && s[|s| - 3] == 't';
      EndsDiffer(s, "-alpha", 1);
      EndsDiffer(s, "-alpha.", 3);
    } else {
      assert s == head;
      EndsDiffer(s, "-alpha", 2);
      EndsDiffer(s, "-alpha.", 1);
    }
    assert "-alpha" + "." == "-alpha.";
  }

  lemma RewriteMarkedCandidate(base: string, dot: string, n: string)
    requires IsBase(base) && IsDot(dot) && Digits(n)
    ensures Rewrite(base + "-rc" + dot + n) == base + "rc" + n
  {
    LastOf(base, "-rc");
    NotHotfix(base + "-rc", dot, n);
    ShortenUnmarked(base + "-rc", dot, n, "-alpha", "a");
    ShortenUnmarked(base + "-rc", dot, n, "-beta", "b");
    ShortenMarked(base, "-rc", dot, "rc", n);
  }

  lemma HotfixMarked(base: string, dot: string, n: string, p: string)
    requires IsDot(dot) && Digits(n) && Digits(p)
    ensures ShortenHotfix(base + "-alpha" + dot + n + "." + p) == base + "a" + n + ".post" + p
  {
    if dot == "." {
      Hotfix(base, n, p);
    } else {
      UndottedHotfix(base, n, p);
      assert base + "-alpha" + dot == base + "-alpha";
    }
  }

  lemma UndottedHotfix(base: string, n: string, p: string)
    requires Digits(n) && Digits(p)
    ensures ShortenHotfix(base + "-alpha" + n + "." + p) == base + "a" + n + ".post" + p
  {
    var head := base + "-alpha";
    assert head[|head| - 1] == 'a';
    NumberSplits(head + n + ".", p);
    Ends(head + n, ".");
    NumberSplits(head, n);
    Ends(base, "-alpha");
    EndsDiffer(head, "-alpha.", 1);
  }

  lemma RewriteMarkedHotfix(base: string, dot: string, n: string, p: string)
    requires IsBase(base) && IsDot(dot) && Digits(n) && Digits(p)
    ensures Rewrite(base + "-alpha" + dot + n + "." + p) == base + "a" + n + ".post" + p
    ensures Show(Version(base, Numbered(Alpha, n), Some(p))) == base + "a" + n + ".post" + p
  {
    HotfixMarked(base, dot, n, p);
    Rejoin(base, "a", n, base + "a", base + "a" + n);
    Rejoin(base + "a" + n, ".post", p, base + "a" + n + ".post", base + "a" + n + ".post" + p);
    ShowNoDash(Version(base, Numbered(Alpha, n), Some(p)));
    ShortenRest(base + "a" + n + ".post" + p);
  }

  // ----- normalising -----

  /** `version` is `bare` with white space around it and one of the prefixes before it. */
  ghost predicate Spells(version: string, bare: string) {
    exists before, prefix, after ::
      Spaces(before) && IsPrefix(prefix) && Spaces(after) && version == before + (prefix + bare + after)
  }

  lemma NormalizeSpelled(version: string, bare: string, v: Version)
    requires Spells(version, bare) && Valid(v) && Rewrite(bare) == Show(v)
    requires bare != [] && IsDigit(bare[0]) && IsDigit(bare[|bare| - 1])
    ensures Normalize(version) == Ok(Show(v))
  {
    var before, prefix, after :|
      Spaces(before) && IsPrefix(prefix) && Spaces(after) && version == before + (prefix + bare + after);
    Stripped(before, prefix, bare, after);
    ShowParses(v);
  }

  lemma Bounds(base: string, head: string, n: string)
    requires IsBase(base) && base <= head && Digits(n)
    ensures var s := head + n; s != [] && IsDigit(s[0]) && IsDigit(s[|s| - 1])
  {
    BaseChars(base);
    LastOf(head, n);
    assert (head + n)[0] == head[0] == base[0];
  }

  lemma NormalizeAs(version: string, base: string, head: string, n: string, v: Version)
    requires IsBase(base) && base <= head && Digits(n) && Spells(version, head + n)
    requires Valid(v) && Rewrite(head + n) == Show(v)
    ensures Normalize(version) == Ok(Show(v))
  {
    Bounds(base, head, n);
    NormalizeSpelled(version, head + n, v);
  }

  lemma Begins(a: string, b: string, c: string)
    ensures a <= a + b + c
  {
  }

  lemma BeginsLonger(a: string, b: string, c: string, d: string, e: string)
    ensures a <= a + b + c + d + e
  {
  }

  /** Every spelling of a pre-release, with or without a dot before its number, normalises to the short form. */
  lemma NormalizeMarked(version: string, base: string, dot: string, n: string)
    requires IsBase(base) && IsDot(dot) && Digits(n)
    ensures Spells(version, base + "-alpha" + dot + n) ==> Normalize(version) == Ok(base + "a" + n)
    ensures Spells(version, base + "-beta" + dot + n) ==> Normalize(version) == Ok(base + "b" + n)
    ensures Spells(version, base + "-rc" + dot + n) ==> Normalize(version) == Ok(base + "rc" + n)
  {
    NormalizeAlpha(version, base, dot, n);
    NormalizeBeta(version, base, dot, n);
    NormalizeCandidate(version, base, dot, n);
  }

  lemma NormalizeAlpha(version: string, base: string, dot: string, n: string)
    requires IsBase(base) && IsDot(dot) && Digits(n)
    ensures Spells(version, base + "-alpha" + dot + n) ==> Normalize(version) == Ok(base + "a" + n)
  {
    var head := base + "-alpha" + dot;
    if Spells(version, head + n) {
      RewriteMarkedAlpha(base, dot, n);
      ShowNumbered(base, Alpha, n);
      Begins(base, "-alpha", dot);
      NormalizeAs(version, base, head, n, Version(base, Numbered(Alpha, n), None));
    }
  }

  lemma NormalizeBeta(version: string, base: string, dot: string, n: string)
    requires IsBase(base) && IsDot(dot) && Digits(n)
    ensures Spells(version, base + "-beta" + dot + n) ==> Normalize(version) == Ok(base + "b" + n)
  {
    var head := base + "-beta" + dot;
    if Spells(version, head + n) {
      RewriteMarkedBeta(base, dot, n);
      ShowNumbered(base, Beta, n);
      Begins(base, "-beta", dot);
      NormalizeAs(version, base, head, n, Version(base, Numbered(Beta, n), None));
    }
  }

  lemma NormalizeCandidate(version: string, base: string, dot: string, n: string)
    requires IsBase(base) && IsDot(dot) && Digits(n)
    ensures Spells(version, base + "-rc" + dot + n) ==> Normalize(version) == Ok(base + "rc" + n)
  {
    var head := base + "-rc" + dot;
    if Spells(version, head + n) {
      RewriteMarkedCandidate(base, dot, n);
      ShowNumbered(base, Candidate, n);
      Begins(base, "-rc", dot);
      NormalizeAs(version, base, head, n, Version(base, Numbered(Candidate, n), None));
    }
  }

  /** A hotfix of an alpha release normalises to its post-release. */
  lemma NormalizeHotfix(version: string, base: string, dot: string, n: string, p: string)
    requires IsBase(base) && IsDot(dot) && Digits(n) && Digits(p)
    requires Spells(version, base + "-alpha" + dot + n + "." + p)
    ensures Normalize(version) == Ok(base + "a" + n + ".post" + p)
  {
    RewriteMarkedHotfix(base, dot, n, p);
    BeginsLonger(base, "-alpha", dot, n, ".");
    NormalizeAs(version, base, base + "-alpha" + dot + n + ".", p, Version(base, Numbered(Alpha, n), Some(p)));
  }

  /** A version in normal form is its own normal form, in every spelling. */
  lemma NormalizeNormal(version: string, v: Version)
    requires Valid(v) && Spells(version, Show(v))
    ensures Normalize(version) == Ok(Show(v))
  {
    ShowShape(v);
    ShownIsBare(v);
    NormalizeSpelled(version, Show(v), v);
  }

  // ----- tags -----

  lemma TagText(start: string, base: string, name: string, dotted: string, n: string)
    requires name + "." == dotted
    ensures start + (base + name + "." + n) == start + base + dotted + n
  {
  }

  lemma TagOf(version: string, v: Version)
    requires Valid(v) && Normalize(version) == Ok(Show(v))
    ensures ReleaseTag(version) == Ok("rust-v" + ReleaseName(v))
  {
    ShowParses(v);
  }

  lemma DottedNames()
    ensures "-alpha" + "." == "-alpha." && "-beta" + "." == "-beta." && "-rc" + "." == "-rc."
  {
  }

  lemma TagOfNumbered(version: string, base: string, k: Kind, n: string, letter: string, name: string, dotted: string)
    requires IsBase(base) && Digits(n) && Letter(k) == letter && Name(k) == name && name + "." == dotted
    requires Normalize(version) == Ok(base + letter + n)
    ensures ReleaseTag(version) == Ok("rust-v" + base + dotted + n)
  {
    var v := Version(base, Numbered(k, n), None);
    ShowNumbered(base, k, n);
    TagOf(version, v);
    assert ReleaseName(v) == base + name + "." + n;
    TagText("rust-v", base, name, dotted, n);
  }

  /** The tag of a numbered pre-release spells out its kind. */
  lemma TagOfPrerelease(version: string, base: string, n: string)
    requires IsBase(base) && Digits(n)
    ensures Normalize(version) == Ok(base + "a" + n) ==> ReleaseTag(version) == Ok("rust-v" + base + "-alpha." + n)
    ensures Normalize(version) == Ok(base + "b" + n) ==> ReleaseTag(version) == Ok("rust-v" + base + "-beta." + n)
    ensures Normalize(version) == Ok(base + "rc" + n) ==> ReleaseTag(version) == Ok("rust-v" + base + "-rc." + n)
  {
    TagOfAlpha(version, base, n);
    TagOfBeta(version, base, n);
    TagOfCandidate(version, base, n);
  }

  lemma {:induction false} TagOfAlpha(version: string, base: string, n: string)
    requires IsBase(base) && Digits(n)
    ensures Normalize(version) == Ok(base + "a" + n) ==> ReleaseTag(version) == Ok("rust-v" + base + "-alpha." + n)
  {
    if Normalize(version) == Ok(base + "a" + n) {
      DottedNames();
      TagOfNumbered(version, base, Alpha, n, "a", "-alpha", "-alpha.");
    }
  }

  lemma {:induction false} TagOfBeta(version: string, base: string, n: string)
    requires IsBase(base) && Digits(n)
    ensures Normalize(version) == Ok(base + "b" + n) ==> ReleaseTag(version) == Ok("rust-v" + base + "-beta." + n)
  {
    if Normalize(version) == Ok(base + "b" + n) {
      DottedNames();
      TagOfNumbered(version, base, Beta, n, "b", "-beta", "-beta.");
    }
  }

  lemma {:induction false} TagOfCandidate(version: string, base: string, n: string)
    requires IsBase(base) && Digits(n)
    ensures Normalize(version) == Ok(base + "rc" + n) ==> ReleaseTag(version) == Ok("rust-v" + base + "-rc." + n)
  {
    if Normalize(version) == Ok(base + "rc" + n) {
      DottedNames();
      TagOfNumbered(version, base, Candidate, n, "rc", "-rc", "-rc.");
    }
  }

  lemma HotfixText(start: string, base: string, n: string, p: string)
    ensures start + (base + "-alpha" + "." + n + "." + p) == start + base + "-alpha." + n + "." + p
  {
    assert "-alpha" + "." == "-alpha.";
    TagText(start, base, "-alpha", "-alpha.", n);
    TagEnd(start, base + "-alpha" + "." + n, p);
  }

  lemma TagEnd(start: string, name: string, p: string)
    ensures start + (name + "." + p) == start + name + "." + p
  {
  }

  lemma HotfixName(base: string, n: string, p: string)
    ensures ReleaseName(Version(base, Numbered(Alpha, n), Some(p))) == base + "-alpha" + "." + n + "." + p
  {
  }

  /** The tag of a hotfix of an alpha release ends in both numbers. */
  lemma TagOfHotfix(version: string, base: string, n: string, p: string)
    requires IsBase(base) && Digits(n) && Digits(p) && Normalize(version) == Ok(base + "a" + n + ".post" + p)
    ensures ReleaseTag(version) == Ok("rust-v" + base + "-alpha." + n + "." + p)
  {
    RewriteMarkedHotfix(base, "", n, p);
    TagOf(version, Version(base, Numbered(Alpha, n), Some(p)));
    HotfixName(base, n, p);
    HotfixText("rust-v", base, n, p);
  }

  /** The tags of versions given in normal form. */
  lemma TagsOfStrings(base: string, n: string, p: string)
    requires IsBase(base) && Digits(n) && Digits(p)
    ensures ReleaseTag(base + "a" + n) == Ok("rust-v" + base + "-alpha." + n)
    ensures ReleaseTag(base + "b" + n) == Ok("rust-v" + base + "-beta." + n)
    ensures ReleaseTag(base + "rc" + n) == Ok("rust-v" + base + "-rc." + n)
    ensures ReleaseTag(base + "a" + n + ".post" + p) == Ok("rust-v" + base + "-alpha." + n + "." + p)
  {
    AlphaTag(base, n);
    BetaTag(base, n);
    CandidateTag(base, n);
    HotfixTag(base, n, p);
  }

  lemma AlphaTag(base: string, n: string)
    requires IsBase(base) && Digits(n)
    ensures ReleaseTag(base + "a" + n) == Ok("rust-v" + base + "-alpha." + n)
  {
    ShowNumbered(base, Alpha, n);
    ShownIsNormal(Version(base, Numbered(Alpha, n), None));
    TagOfAlpha(base + "a" + n, base, n);
  }

  lemma BetaTag(base: string, n: string)
    requires IsBase(base) && Digits(n)
    ensures ReleaseTag(base + "b" + n) == Ok("rust-v" + base + "-beta." + n)
  {
    ShowNumbered(base, Beta, n);
    ShownIsNormal(Version(base, Numbered(Beta, n), None));
    TagOfBeta(base + "b" + n, base, n);
  }

  lemma CandidateTag(base: string, n: string)
    requires IsBase(base) && Digits(n)
    ensures ReleaseTag(base + "rc" + n) == Ok("rust-v" + base + "-rc." + n)
  {
    ShowNumbered(base, Candidate, n);
    ShownIsNormal(Version(base, Numbered(Candidate, n), None));
    TagOfCandidate(base + "rc" + n, base, n);
  }

  lemma HotfixTag(base: string, n: string, p: string)
    requires IsBase(base) && Digits(n) && Digits(p)
    ensures ReleaseTag(base + "a" + n + ".post" + p) == Ok("rust-v" + base + "-alpha." + n + "." + p)
  {
    RewriteMarkedHotfix(base, "", n, p);
    ShownIsNormal(Version(base, Numbered(Alpha, n), Some(p)));
    TagOfHotfix(base + "a" + n + ".post" + p, base, n, p);
  }

  /** The forms that a tag spells out. */
  predicate HasForm(s: string, base: string, n: string, p: string) {
    && IsBase(base) && Digits(n)
    && (s == base + "a" + n || s == base + "b" + n || s == base + "rc" + n
        || (Digits(p) && s == base + "a" + n + ".post" + p))
  }

  ghost predicate SpelledOut(s: string) {
    exists base, n, p :: HasForm(s, base, n, p)
  }

  /** Every other version's tag is its normal form after the prefix. */
  lemma TagOfOther(version: string)
    requires Normalize(version).Ok? && !SpelledOut(Normalize(version).value)
    ensures ReleaseTag(version) == Ok("rust-v" + Normalize(version).value)
  {
    var v := NormalShows(version);
    TagOf(version, v);
    if !v.pre.Final? && (v.post.None? || v.pre.kind.Alpha?) {
      SpelledOutVersion(v);
    }
  }

  lemma SpelledOutVersion(v: Version)
    requires Valid(v) && !v.pre.Final? && (v.post.None? || v.pre.kind.Alpha?)
    ensures SpelledOut(Show(v))
  {
    if v.post.Some? {
      RewriteMarkedHotfix(v.base, "", v.pre.n, v.post.value);
      assert HasForm(Show(v), v.base, v.pre.n, v.post.value);
    } else {
      ShowNumbered(v.base, v.pre.kind, v.pre.n);
      assert HasForm(Show(v), v.base, v.pre.n, "");
    }
  }
}
