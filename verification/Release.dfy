/** Release versions: normalising a version or tag, and the tag of a version (PEP 440, sections
    Pre-releases and Post-releases). */
module Release {
  import opened Wrappers

  datatype VersionError = NotAVersion

  // ----- strings -----

  /** The characters that `str.strip` removes. */
  predicate IsSpace(c: char) {
    var n := c as int;
    9 <= n <= 13 || 28 <= n <= 32 || n == 0x85 || n == 0xA0 || n == 0x1680 || 0x2000 <= n <= 0x200A
    || n == 0x2028 || n == 0x2029 || n == 0x202F || n == 0x205F || n == 0x3000
  }

  function StripLeft(s: string): string { if s != [] && IsSpace(s[0]) then StripLeft(s[1..]) else s }

  function StripRight(s: string): string {
    if s != [] && IsSpace(s[|s| - 1]) then StripRight(s[..|s| - 1]) else s
  }

  function Strip(s: string): string { StripRight(StripLeft(s)) }

  predicate IsDigit(c: char) { '0' <= c <= '9' }

  predicate Digits(s: string) { s != [] && forall i :: 0 <= i < |s| ==> IsDigit(s[i]) }

  predicate EndsWith(s: string, suffix: string) { |suffix| <= |s| && s[|s| - |suffix|..] == suffix }

  function Chop(s: string, suffix: string): (r: string)
    requires EndsWith(s, suffix)
    ensures r + suffix == s
  {
    s[..|s| - |suffix|]
  }

  function TrailingDigits(s: string): (n: nat)
    ensures n <= |s| && forall i :: |s| - n <= i < |s| ==> IsDigit(s[i])
    ensures n < |s| ==> !IsDigit(s[|s| - n - 1])
  {
    if s != [] && IsDigit(s[|s| - 1]) then 1 + TrailingDigits(s[..|s| - 1]) else 0
  }

  /** Split off the number at the end. */
  function SplitNumber(s: string): (r: Option<(string, string)>)
    ensures r.Some? ==> r.value.0 + r.value.1 == s && Digits(r.value.1) && |r.value.0| < |s|
    ensures r.Some? && r.value.0 != [] ==> !IsDigit(r.value.0[|r.value.0| - 1])
  {
    var n := TrailingDigits(s);
    if n == 0 then None else Some((s[..|s| - n], s[|s| - n..]))
  }

  lemma NumberSplits(head: string, d: string)
    requires Digits(d) && (head == [] || !IsDigit(head[|head| - 1]))
    ensures SplitNumber(head + d) == Some((head, d))
  {
    var s := head + d;
    assert forall i :: |head| <= i < |s| ==> s[i] == d[i - |head|];
    assert head != [] ==> s[|head| - 1] == head[|head| - 1];
    assert TrailingDigits(s) == |d|;
  }

  // ----- the normal form -----

  datatype Kind = Alpha | Beta | Candidate

  function Letter(k: Kind): string {
    match k
    case Alpha => "a"
    case Beta => "b"
    case Candidate => "rc"
  }

  function Name(k: Kind): string {
    match k
    case Alpha => "-alpha"
    case Beta => "-beta"
    case Candidate => "-rc"
  }

  datatype Pre = Final | Numbered(kind: Kind, n: string)

  datatype Version = Version(base: string, pre: Pre, post: Option<string>)

  predicate IsBase(s: string) {
    var r := SplitNumber(s);
    r.Some? && (r.value.0 == "" || (EndsWith(r.value.0, ".") && IsBase(Chop(r.value.0, "."))))
  }

  predicate Valid(v: Version) {
    && IsBase(v.base) && (v.pre.Final? || Digits(v.pre.n)) && (v.post.Some? ==> Digits(v.post.value))
  }

  function ShowPre(p: Pre): string { if p.Final? then "" else Letter(p.kind) + p.n }

  function ShowPost(post: Option<string>): string { if post.Some? then ".post" + post.value else "" }

  function Show(v: Version): string { v.base + ShowPre(v.pre) + ShowPost(v.post) }

  predicate HasKind(head: string, k: Kind) { EndsWith(head, Letter(k)) && IsBase(Chop(head, Letter(k))) }

  /** Which pre-release a string without its number ends in. */
  function KindAt(head: string): (k: Option<Kind>)
    ensures k.Some? ==> HasKind(head, k.value)
  {
    if HasKind(head, Candidate) then Some(Candidate)
    else if HasKind(head, Alpha) then Some(Alpha)
    else if HasKind(head, Beta) then Some(Beta)
    else None
  }

  function ParsePre(s: string, post: Option<string>): Option<Version> {
    var r := SplitNumber(s);
    if r.None? then None
    else
      var (head, d) := r.value;
      var k := KindAt(head);
      if k.Some? then Some(Version(Chop(head, Letter(k.value)), Numbered(k.value, d), post))
      else if IsBase(s) then Some(Version(s, Final, post))
      else None
  }

  /** Match a whole string against the pattern of normal versions. */
  function ParseNormal(s: string): Option<Version> {
    var r := SplitNumber(s);
    if r.Some? && EndsWith(r.value.0, ".post") then ParsePre(Chop(r.value.0, ".post"), Some(r.value.1))
    else ParsePre(s, None)
  }

  // ----- normalising and tagging -----

  /** Rewrite a marker with a number at the end, as in `-beta.2`. */
  function Shorten(s: string, marker: string, letter: string): string {
    var r := SplitNumber(s);
    if r.None? then s
    else if EndsWith(r.value.0, marker + ".") then Chop(r.value.0, marker + ".") + letter + r.value.1
    else if EndsWith(r.value.0, marker) then Chop(r.value.0, marker) + letter + r.value.1
    else s
  }

  /** Rewrite an alpha marker with two numbers at the end. */
  function ShortenHotfix(s: string): string {
    var r := SplitNumber(s);
    if r.None? || !EndsWith(r.value.0, ".") then s
    else
      var head, hotfix := Chop(r.value.0, "."), r.value.1;
      var q := SplitNumber(head);
      if q.None? then s
      else if EndsWith(q.value.0, "-alpha.") then Chop(q.value.0, "-alpha.") + "a" + q.value.1 + ".post" + hotfix
      else if EndsWith(q.value.0, "-alpha") then Chop(q.value.0, "-alpha") + "a" + q.value.1 + ".post" + hotfix
      else s
  }

  function WithoutPrefix(s: string): string {
    if "rust-v" <= s then s[6..] else if "v" <= s then s[1..] else s
  }

  function Rewrite(s: string): string {
    Shorten(Shorten(Shorten(ShortenHotfix(s), "-alpha", "a"), "-beta", "b"), "-rc", "rc")
  }

  function Normalize(version: string): Result<string, VersionError> {
    var s := Rewrite(WithoutPrefix(Strip(version)));
    if ParseNormal(s).Some? then Ok(s) else Err(NotAVersion)
  }

  function ReleaseName(v: Version): string {
    if v.pre.Final? || (v.post.Some? && !v.pre.kind.Alpha?) then Show(v)
    else
      var name := v.base + Name(v.pre.kind) + "." + v.pre.n;
      if v.post.Some? then name + "." + v.post.value else name
  }

  function ReleaseVersion(version: string): Result<string, VersionError> {
    var s := Normalize(version);
    if s.Err? then s else Ok(ReleaseName(ParseNormal(s.value).value))
  }

  function ReleaseTag(version: string): Result<string, VersionError> {
    var s := ReleaseVersion(version);
    if s.Err? then s else Ok("rust-v" + s.value)
  }

  // ----- parsing and showing -----

  lemma BaseEnds(s: string)
    requires IsBase(s)
    ensures s != [] && IsDigit(s[|s| - 1])
  {
    var r := SplitNumber(s).value;
    assert s[|s| - 1] == r.1[|r.1| - 1];
  }

  predicate BaseChar(c: char) { IsDigit(c) || c == '.' }

  lemma {:induction false} BaseChars(s: string)
    requires IsBase(s)
    ensures IsDigit(s[0]) && forall i :: 0 <= i < |s| ==> BaseChar(s[i])
  {
    var r := SplitNumber(s).value;
    assert forall i :: |r.0| <= i < |s| ==> s[i] == r.1[i - |r.0|];
    if r.0 != "" {
      var rest := Chop(r.0, ".");
      BaseChars(rest);
      assert s[..|rest|] == rest && s[|rest|] == '.';
      assert forall i :: 0 <= i < |rest| ==> s[i] == s[..|rest|][i];
    }
  }

  lemma Rejoin(a: string, b: string, c: string, ab: string, abc: string)
    requires a + b == ab && ab + c == abc
    ensures a + (b + c) == abc
  {
  }

  lemma Ends(head: string, suffix: string)
    ensures EndsWith(head + suffix, suffix) && Chop(head + suffix, suffix) == head
  {
  }

  lemma EndsDiffer(s: string, suffix: string, k: nat)
    requires 0 < k <= |suffix| && k <= |s| && s[|s| - k] != suffix[|suffix| - k]
    ensures !EndsWith(s, suffix)
  {
    assert |suffix| <= |s| ==> s[|s| - |suffix|..][|suffix| - k] == s[|s| - k];
  }

  lemma LetterEnds(k: Kind)
    ensures Letter(k) != [] && !IsDigit(Letter(k)[|Letter(k)| - 1]) && Letter(k)[|Letter(k)| - 1] != '.'
    ensures '-' !in Letter(k)
  {
  }

  lemma NoKind(head: string)
    requires head == "" || head[|head| - 1] == '.'
    ensures KindAt(head) == None && !EndsWith(head, ".post")
  {
    if head != "" {
      EndsDiffer(head, ".post", 1);
      EndsDiffer(head, Letter(Alpha), 1);
      EndsDiffer(head, Letter(Beta), 1);
      EndsDiffer(head, Letter(Candidate), 1);
    }
  }

  /** A base is not read as a pre-release. */
  lemma BaseIsFinal(base: string, post: Option<string>)
    requires IsBase(base)
    ensures ParsePre(base, post) == Some(Version(base, Final, post))
    ensures !EndsWith(SplitNumber(base).value.0, ".post")
  {
    var head := SplitNumber(base).value.0;
    assert head != "" ==> head[|head| - 1] == '.';
    NoKind(head);
  }

  lemma KindFound(base: string, k: Kind)
    requires IsBase(base)
    ensures KindAt(base + Letter(k)) == Some(k) && Chop(base + Letter(k), Letter(k)) == base
    ensures !EndsWith(base + Letter(k), ".post")
  {
    var head := base + Letter(k);
    Ends(base, Letter(k));
    EndsDiffer(head, ".post", 1);
    if !k.Candidate? {
      EndsDiffer(head, "rc", 1);
    }
    if k.Beta? {
      EndsDiffer(head, "a", 1);
    }
  }

  lemma PreParses(base: string, pre: Pre, post: Option<string>)
    requires Valid(Version(base, pre, post))
    ensures ParsePre(base + ShowPre(pre), post) == Some(Version(base, pre, post))
    ensures !EndsWith(SplitNumber(base + ShowPre(pre)).value.0, ".post")
  {
    if pre.Final? {
      assert base + "" == base;
      BaseIsFinal(base, post);
    } else {
      var head := base + Letter(pre.kind);
      LetterEnds(pre.kind);
      Rejoin(base, Letter(pre.kind), pre.n, head, head + pre.n);
      NumberSplits(head, pre.n);
      KindFound(base, pre.kind);
    }
  }

  lemma PostParses(s: string, p: string)
    requires Digits(p)
    ensures ParseNormal(s + (".post" + p)) == ParsePre(s, Some(p))
  {
    Rejoin(s, ".post", p, s + ".post", s + ".post" + p);
    NumberSplits(s + ".post", p);
    Ends(s, ".post");
  }

  lemma PlainParses(s: string)
    requires SplitNumber(s).Some? ==> !EndsWith(SplitNumber(s).value.0, ".post")
    ensures ParseNormal(s) == ParsePre(s, None)
  {
  }

  /** Showing a version and matching it again gives the version. */
  lemma ShowParses(v: Version)
    requires Valid(v)
    ensures ParseNormal(Show(v)) == Some(v)
  {
    var s := v.base + ShowPre(v.pre);
    PreParses(v.base, v.pre, v.post);
    if v.post.Some? {
      PostParses(s, v.post.value);
    } else {
      PlainParses(s);
      assert s + "" == s;
    }
  }

  lemma ParsePreShows(s: string, post: Option<string>)
    requires ParsePre(s, post).Some? && (post.Some? ==> Digits(post.value))
    ensures var v := ParsePre(s, post).value; Valid(v) && v.post == post && v.base + ShowPre(v.pre) == s
  {
    var (head, d) := SplitNumber(s).value;
    var v := ParsePre(s, post).value;
    if v.pre.Final? {
      assert v.base + "" == v.base;
    } else {
      Rejoin(v.base, Letter(v.pre.kind), d, head, s);
    }
  }

  lemma ShowsWithPost(v: Version, rest: string, head: string, p: string, s: string)
    requires v.base + ShowPre(v.pre) == rest && v.post == Some(p) && rest + ".post" == head && head + p == s
    ensures Show(v) == s
  {
    Rejoin(rest, ".post", p, head, s);
  }

  lemma ShowsWithoutPost(v: Version, s: string)
    requires v.base + ShowPre(v.pre) == s && v.post == None
    ensures Show(v) == s
  {
    assert s + "" == s;
  }

  /** What matches is a version, shown. */
  lemma ParseShows(s: string)
    requires ParseNormal(s).Some?
    ensures Valid(ParseNormal(s).value) && Show(ParseNormal(s).value) == s
  {
    var r := SplitNumber(s);
    if r.Some? && EndsWith(r.value.0, ".post") {
      var rest := Chop(r.value.0, ".post");
      ParsePreShows(rest, Some(r.value.1));
      ShowsWithPost(ParseNormal(s).value, rest, r.value.0, r.value.1, s);
    } else {
      ParsePreShows(s, None);
      ShowsWithoutPost(ParseNormal(s).value, s);
    }
  }

  // ----- rewriting -----

  predicate NoDash(s: string) { '-' !in s }

  lemma EndsWithDash(s: string, marker: string)
    requires NoDash(s) && marker != [] && marker[0] == '-'
    ensures !EndsWith(s, marker)
  {
    assert |marker| <= |s| ==> s[|s| - |marker|..][0] in s;
  }

  lemma ShortenNothing(s: string, marker: string, letter: string)
    requires NoDash(s) && marker != [] && marker[0] == '-'
    ensures Shorten(s, marker, letter) == s
  {
    var r := SplitNumber(s);
    if r.Some? {
      assert forall c :: c in r.value.0 ==> c in s;
      EndsWithDash(r.value.0, marker);
      EndsWithDash(r.value.0, marker + ".");
    }
  }

  lemma RewriteNothing(s: string)
    requires NoDash(s)
    ensures Rewrite(s) == s
  {
    var r := SplitNumber(s);
    if r.Some? && EndsWith(r.value.0, ".") {
      assert forall c :: c in r.value.0 ==> c in s;
      var head := Chop(r.value.0, ".");
      assert forall c :: c in head ==> c in r.value.0;
      var q := SplitNumber(head);
      if q.Some? {
        assert forall c :: c in q.value.0 ==> c in head;
        EndsWithDash(q.value.0, "-alpha");
        EndsWithDash(q.value.0, "-alpha.");
      }
    }
    assert ShortenHotfix(s) == s;
    ShortenNothing(s, "-alpha", "a");
    ShortenNothing(s, "-beta", "b");
    ShortenNothing(s, "-rc", "rc");
  }

  lemma NoDashAppend(a: string, b: string)
    ensures NoDash(a + b) <==> NoDash(a) && NoDash(b)
  {
    assert forall c :: c in a + b <==> c in a || c in b;
  }

  lemma ShowNoDash(v: Version)
    requires Valid(v)
    ensures NoDash(Show(v))
  {
    BaseChars(v.base);
    if v.post.Some? {
      NoDashAppend(".post", v.post.value);
    }
    assert NoDash(ShowPost(v.post));
    if !v.pre.Final? {
      LetterEnds(v.pre.kind);
      NoDashAppend(Letter(v.pre.kind), v.pre.n);
    }
    NoDashAppend(v.base, ShowPre(v.pre));
    NoDashAppend(v.base + ShowPre(v.pre), ShowPost(v.post));
  }

  // ----- tags -----

  lemma ShortenNamed(base: string, name: string, letter: string, n: string)
    requires Digits(n)
    ensures Shorten(base + name + "." + n, name, letter) == base + letter + n
  {
    NumberSplits(base + name + ".", n);
    assert base + name + "." == base + (name + ".");
    Ends(base, name + ".");
  }

  /** Another marker at the end is left alone. */
  lemma ShortenOther(head: string, n: string, name: string, letter: string, k: nat)
    requires Digits(n) && head != [] && head[|head| - 1] == '.' && name != [] && name[|name| - 1] != '.'
    requires 1 < k <= |name| + 1 && k <= |head| && head[|head| - k] != name[|name| + 1 - k]
    ensures Shorten(head + n, name, letter) == head + n
  {
    NumberSplits(head, n);
    EndsDiffer(head, name, 1);
    assert (name + ".")[|name| + 1 - k] == name[|name| + 1 - k];
    EndsDiffer(head, name + ".", k);
  }

  /** One number after a marker is not a hotfix. */
  lemma NoHotfix(head: string, n: string)
    requires Digits(n) && |head| > 1 && head[|head| - 1] == '.' && !IsDigit(head[|head| - 2])
    ensures ShortenHotfix(head + n) == head + n
  {
    NumberSplits(head, n);
    Ends(head[..|head| - 1], ".");
    assert head == head[..|head| - 1] + ".";
    assert TrailingDigits(head[..|head| - 1]) == 0;
  }

  lemma Hotfix(base: string, n: string, p: string)
    requires Digits(n) && Digits(p)
    ensures ShortenHotfix(base + "-alpha" + "." + n + "." + p) == base + "a" + n + ".post" + p
  {
    var head := base + "-alpha" + ".";
    NumberSplits(head + n + ".", p);
    Ends(head + n, ".");
    NumberSplits(head, n);
    assert head == base + "-alpha.";
    Ends(base, "-alpha.");
  }

  lemma ShortenRest(s: string)
    requires NoDash(s)
    ensures Shorten(s, "-alpha", "a") == s && Shorten(s, "-beta", "b") == s && Shorten(s, "-rc", "rc") == s
  {
    ShortenNothing(s, "-alpha", "a");
    ShortenNothing(s, "-beta", "b");
    ShortenNothing(s, "-rc", "rc");
  }

  lemma ShowNumbered(base: string, k: Kind, n: string)
    requires IsBase(base) && Digits(n)
    ensures Show(Version(base, Numbered(k, n), None)) == base + Letter(k) + n
    ensures NoDash(base + Letter(k) + n)
  {
    Rejoin(base, Letter(k), n, base + Letter(k), base + Letter(k) + n);
    assert base + Letter(k) + n + "" == base + Letter(k) + n;
    ShowNoDash(Version(base, Numbered(k, n), None));
  }

  lemma RewriteAlpha(base: string, n: string)
    requires IsBase(base) && Digits(n)
    ensures Rewrite(base + "-alpha" + "." + n) == base + "a" + n
  {
    NoHotfix(base + "-alpha" + ".", n);
    ShortenNamed(base, "-alpha", "a", n);
    ShowNumbered(base, Alpha, n);
    ShortenRest(base + "a" + n);
  }

  lemma RewriteBeta(base: string, n: string)
    requires IsBase(base) && Digits(n)
    ensures Rewrite(base + "-beta" + "." + n) == base + "b" + n
  {
    NoHotfix(base + "-beta" + ".", n);
    ShortenOther(base + "-beta" + ".", n, "-alpha", "a", 3);
    ShortenNamed(base, "-beta", "b", n);
    ShowNumbered(base, Beta, n);
    ShortenRest(base + "b" + n);
  }

  lemma RewriteCandidate(base: string, n: string)
    requires IsBase(base) && Digits(n)
    ensures Rewrite(base + "-rc" + "." + n) == base + "rc" + n
  {
    NoHotfix(base + "-rc" + ".", n);
    ShortenOther(base + "-rc" + ".", n, "-alpha", "a", 2);
    ShortenOther(base + "-rc" + ".", n, "-beta", "b", 2);
    ShortenNamed(base, "-rc", "rc", n);
  }

  lemma RewriteHotfix(base: string, n: string, p: string)
    requires IsBase(base) && Digits(n) && Digits(p)
    ensures Rewrite(base + "-alpha" + "." + n + "." + p) == Show(Version(base, Numbered(Alpha, n), Some(p)))
  {
    var v := Version(base, Numbered(Alpha, n), Some(p));
    Hotfix(base, n, p);
    Rejoin(base, "a", n, base + "a", base + "a" + n);
    Rejoin(base + "a" + n, ".post", p, base + "a" + n + ".post", base + "a" + n + ".post" + p);
    ShowNoDash(v);
    ShortenRest(Show(v));
  }

  /** Rewriting the release name of a version gives its normal form. */
  lemma NameRewrites(v: Version)
    requires Valid(v)
    ensures Rewrite(ReleaseName(v)) == Show(v)
  {
    if v.pre.Final? || (v.post.Some? && !v.pre.kind.Alpha?) {
      ShowNoDash(v);
      RewriteNothing(Show(v));
    } else if v.post.Some? {
      RewriteHotfix(v.base, v.pre.n, v.post.value);
    } else {
      ShowNumbered(v.base, v.pre.kind, v.pre.n);
      match v.pre.kind
      case Alpha => RewriteAlpha(v.base, v.pre.n);
      case Beta => RewriteBeta(v.base, v.pre.n);
      case Candidate => RewriteCandidate(v.base, v.pre.n);
    }
  }

  lemma StripNothing(s: string)
    requires s != [] && !IsSpace(s[0]) && !IsSpace(s[|s| - 1])
    ensures Strip(s) == s
  {
  }

  lemma LastOf(s: string, t: string)
    requires t != []
    ensures (s + t)[|s + t| - 1] == t[|t| - 1]
  {
  }

  lemma ShowShape(v: Version)
    requires Valid(v)
    ensures var s := Show(v); s != [] && IsDigit(s[0]) && IsDigit(s[|s| - 1])
  {
    BaseChars(v.base);
    BaseEnds(v.base);
    var s := v.base + ShowPre(v.pre);
    if !v.pre.Final? {
      LastOf(Letter(v.pre.kind), v.pre.n);
      LastOf(v.base, ShowPre(v.pre));
    } else {
      assert v.base + "" == v.base;
    }
    if v.post.Some? {
      LastOf(".post", v.post.value);
      LastOf(s, ShowPost(v.post));
    } else {
      assert s + "" == s;
    }
  }

  lemma NameEnds(v: Version)
    requires Valid(v)
    ensures var s := ReleaseName(v); s != [] && IsDigit(s[|s| - 1])
  {
    ShowShape(v);
    if !v.pre.Final? && (v.post.None? || v.pre.kind.Alpha?) {
      var name := v.base + Name(v.pre.kind) + ".";
      LastOf(name, v.pre.n);
      if v.post.Some? {
        LastOf(name + v.pre.n + ".", v.post.value);
      }
    }
  }

  lemma NormalizeSteps(version: string, bare: string, v: Version)
    requires Strip(version) == version && WithoutPrefix(version) == bare && Rewrite(bare) == Show(v) && Valid(v)
    ensures Normalize(version) == Ok(Show(v))
  {
    ShowParses(v);
  }

  /** What normalising returns is a version, shown. */
  lemma NormalShows(version: string) returns (v: Version)
    requires Normalize(version).Ok?
    ensures Valid(v) && Normalize(version) == Ok(Show(v)) && ParseNormal(Show(v)) == Some(v)
  {
    var s := Normalize(version).value;
    ParseShows(s);
    v := ParseNormal(s).value;
  }

  lemma NoPrefix(s: string)
    requires s != [] && IsDigit(s[0])
    ensures WithoutPrefix(s) == s
  {
  }

  lemma TagPrefix(name: string)
    ensures WithoutPrefix("rust-v" + name) == name
  {
  }

  lemma StripDigits(s: string)
    requires s != [] && IsDigit(s[|s| - 1])
    ensures IsDigit(s[0]) ==> Strip(s) == s
    ensures Strip("rust-v" + s) == "rust-v" + s
  {
    if IsDigit(s[0]) {
      StripNothing(s);
    }
    LastOf("rust-v", s);
    StripNothing("rust-v" + s);
  }

  lemma ShownIsBare(v: Version)
    requires Valid(v)
    ensures Strip(Show(v)) == Show(v) && WithoutPrefix(Show(v)) == Show(v) && Rewrite(Show(v)) == Show(v)
  {
    ShowShape(v);
    StripDigits(Show(v));
    NoPrefix(Show(v));
    ShowNoDash(v);
    RewriteNothing(Show(v));
  }

  lemma ShownIsNormal(v: Version)
    requires Valid(v)
    ensures Normalize(Show(v)) == Ok(Show(v))
  {
    ShownIsBare(v);
    NormalizeSteps(Show(v), Show(v), v);
  }

  lemma TagIsNormalised(v: Version)
    requires Valid(v)
    ensures Normalize("rust-v" + ReleaseName(v)) == Ok(Show(v))
  {
    NameEnds(v);
    StripDigits(ReleaseName(v));
    TagPrefix(ReleaseName(v));
    NameRewrites(v);
    NormalizeSteps("rust-v" + ReleaseName(v), ReleaseName(v), v);
  }

  /** A normal form is normal already. */
  lemma NormalizeIdempotent(version: string)
    requires Normalize(version).Ok?
    ensures Normalize(Normalize(version).value) == Normalize(version)
  {
    var v := NormalShows(version);
    ShownIsNormal(v);
  }

  /** The tag of a version normalises to the normal form of the version. */
  lemma TagRoundTrip(version: string)
    requires Normalize(version).Ok?
    ensures ReleaseTag(version).Ok? && Normalize(ReleaseTag(version).value) == Normalize(version)
  {
    var v := NormalShows(version);
    TagIsNormalised(v);
  }

  /** Two versions have the same tag exactly when they have the same normal form. */
  lemma TagInjective(a: string, b: string)
    requires Normalize(a).Ok? && Normalize(b).Ok?
    ensures ReleaseTag(a) == ReleaseTag(b) <==> Normalize(a) == Normalize(b)
  {
    TagRoundTrip(a);
    TagRoundTrip(b);
  }
}
