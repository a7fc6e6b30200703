/** The endpoint of a provider's model list: which segments normalising drops, and when normalising
    twice goes further than once. */
module ProviderEndpoint {
  import opened Wrappers
  import opened Provider

  /** A slash before each segment. */
  function Joined(segs: seq<string>): string {
    if segs == [] then "" else "/" + segs[0] + Joined(segs[1..])
  }

  /** The path begins with the first `k` segments. */
  predicate Shares(path: string, segs: seq<string>, k: nat) {
    k <= |segs| && Joined(segs[..k]) + "/" <= path
  }

  /** Exactly the segments that the path shares with `segs` from the start on are dropped. */
  ghost predicate Stripped(path: string, segs: seq<string>, r: string) {
    exists k: nat ::
      && Shares(path, segs, k) && (forall j :: k < j <= |segs| ==> !Shares(path, segs, j))
      && path == Joined(segs[..k]) + r
  }

  lemma {:induction false} JoinedAppend(segs: seq<string>, more: seq<string>)
    ensures Joined(segs + more) == Joined(segs) + Joined(more)
  {
    if segs == [] {
      assert segs + more == more;
    } else {
      JoinedAppend(segs[1..], more);
      assert (segs + more)[1..] == segs[1..] + more;
    }
  }

  lemma JoinedNext(segs: seq<string>, k: nat)
    requires k < |segs|
    ensures Joined(segs[..k + 1]) == Joined(segs[..k]) + "/" + segs[k]
  {
    assert segs[..k + 1] == segs[..k] + [segs[k]];
    JoinedAppend(segs[..k], [segs[k]]);
    assert Joined([segs[k]]) == "/" + segs[k] + Joined([]);
  }

  /** Sharing more segments is sharing fewer. */
  lemma {:induction false} SharesFewer(path: string, segs: seq<string>, k: nat, j: nat)
    requires k <= j && Shares(path, segs, j)
    ensures Shares(path, segs, k)
    decreases j - k
  {
    if k < j {
      JoinedNext(segs, j - 1);
      assert Joined(segs[..j - 1]) + "/" <= path;
      SharesFewer(path, segs, k, j - 1);
    }
  }

  /** After `k` shared segments the rest of the path repeats the next one exactly when `k + 1` are shared. */
  lemma SharesNext(path: string, segs: seq<string>, k: nat, r: string)
    requires k < |segs| && path == Joined(segs[..k]) + r
    ensures Shares(path, segs, k + 1) <==> "/" + segs[k] + "/" <= r
  {
    JoinedNext(segs, k);
    var lead, next := Joined(segs[..k]), "/" + segs[k] + "/";
    assert Joined(segs[..k + 1]) + "/" == lead + next;
    PrefixOfRest(lead, next, r);
  }

  lemma PrefixOfRest(lead: string, next: string, r: string)
    ensures lead + next <= lead + r <==> next <= r
  {
    if lead + next <= lead + r {
      assert forall i :: 0 <= i < |next| ==> next[i] == (lead + next)[|lead| + i] == (lead + r)[|lead| + i] == r[i];
    }
  }

  lemma {:induction false} Dropped(path: string, segs: seq<string>) returns (k: nat)
    requires "/" <= path
    ensures var r := WithoutSegments(path, segs);
      k <= |segs| && path == Joined(segs[..k]) + r && "/" <= r && (k < |segs| ==> !("/" + segs[k] + "/" <= r))
    decreases |segs|
  {
    if Repeats(path, segs) {
      var rest := path[|segs[0]| + 1..];
      assert path == "/" + segs[0] + rest && rest[0] == '/';
      k := Dropped(rest, segs[1..]);
      assert segs[..k + 1] == [segs[0]] + segs[1..][..k];
      JoinedAppend([segs[0]], segs[1..][..k]);
      assert Joined([segs[0]]) == "/" + segs[0] + Joined([]);
      k := k + 1;
    } else {
      k := 0;
      assert segs[..0] == [];
    }
  }

  lemma StrippedAt(path: string, segs: seq<string>) returns (k: nat)
    requires "/" <= path
    ensures var r := WithoutSegments(path, segs);
      && "/" <= r && Shares(path, segs, k) && path == Joined(segs[..k]) + r
      && (forall j :: k < j <= |segs| ==> !Shares(path, segs, j)) && Stripped(path, segs, r)
  {
    k := Dropped(path, segs);
    var r := WithoutSegments(path, segs);
    PrefixOfRest(Joined(segs[..k]), "/", r);
    forall j | k < j <= |segs|
      ensures !Shares(path, segs, j)
    {
      SharesNext(path, segs, k, r);
      if Shares(path, segs, j) {
        SharesFewer(path, segs, k + 1, j);
      }
    }
  }

  /** What is left is determined by the path and the segments. */
  lemma StrippedUnique(path: string, segs: seq<string>, r: string, other: string)
    requires Stripped(path, segs, r) && Stripped(path, segs, other)
    ensures r == other
  {
    var k: nat :| Shares(path, segs, k) && (forall j :: k < j <= |segs| ==> !Shares(path, segs, j))
                  && path == Joined(segs[..k]) + r;
    var l: nat :| Shares(path, segs, l) && (forall j :: l < j <= |segs| ==> !Shares(path, segs, j))
                  && path == Joined(segs[..l]) + other;
    assert k == l;
    assert r == path[|Joined(segs[..k])|..] == other;
  }

  /** Drop the segments of the base path that an endpoint repeats. */
  method NormalizeModelsEndpoint(endpoint: string, baseUrl: string, urlPath: UrlPath) returns (r: string)
    ensures r == Endpoint(endpoint, baseUrl, urlPath)
    ensures if IsRelative(Trim(endpoint)) then Stripped(Trim(endpoint), BaseSegments(baseUrl, urlPath), r)
            else r == Trim(endpoint)
  {
    var trimmed := Trim(endpoint);
    if !IsRelative(trimmed) {
      return trimmed;
    }
    var basePath := urlPath(Trim(baseUrl));
    ghost var k := StrippedAt(trimmed, BaseSegments(baseUrl, urlPath));
    if basePath.None? {
      return trimmed;
    }
    var segments := Segments(basePath.value);
    r := trimmed;
    while Repeats(r, segments)
      invariant WithoutSegments(r, segments) == Endpoint(endpoint, baseUrl, urlPath)
      decreases |segments|
    {
      r := r[|segments[0]| + 1..];
      segments := segments[1..];
    }
  }

  /** An endpoint is left as it is exactly when it is trimmed and does not repeat the first segment. */
  lemma EndpointFixed(endpoint: string, baseUrl: string, urlPath: UrlPath)
    ensures Endpoint(endpoint, baseUrl, urlPath) == endpoint <==>
      Trimmed(endpoint) && !(IsRelative(endpoint) && Repeats(endpoint, BaseSegments(baseUrl, urlPath)))
  {
    TrimMeaning(endpoint);
  }

  // ----- normalising twice -----

  /** A segment is not empty and holds no slash. */
  predicate Proper(seg: string) { seg != "" && '/' !in seg }

  lemma {:induction false} SegmentsProper(path: string)
    ensures forall i :: 0 <= i < |Segments(path)| ==> Proper(Segments(path)[i])
    decreases |path|
  {
    if path != [] {
      var n := SlashAt(path);
      SegmentsProper(if n == |path| then [] else path[n + 1..]);
    }
  }

  /** A path begins with one proper segment at most. */
  lemma OneSegment(a: string, b: string, path: string)
    requires Proper(a) && Proper(b) && "/" + a + "/" <= path && "/" + b + "/" <= path
    ensures a == b
  {
    assert path[|a| + 1] == '/' && path[|b| + 1] == '/';
    assert path[1..|a| + 1] == a && path[1..|b| + 1] == b;
  }

  /** After the first `k` segments the path begins with the first segment again, where `segs` does not. */
  predicate RestartsAt(path: string, segs: seq<string>, k: nat) {
    && 1 <= k <= |segs| && (k == |segs| || segs[k] != segs[0])
    && Joined(segs[..k]) + ("/" + segs[0] + "/") <= path
  }

  ghost predicate Restarts(path: string, segs: seq<string>) {
    exists k :: RestartsAt(path, segs, k)
  }

  /** What is left begins with the first segment again exactly when the path restarts. */
  lemma LeftRepeats(path: string, segs: seq<string>)
    requires "/" <= path && forall i :: 0 <= i < |segs| ==> Proper(segs[i])
    ensures Repeats(WithoutSegments(path, segs), segs) <==> Restarts(path, segs)
  {
    var k := StrippedAt(path, segs);
    var r := WithoutSegments(path, segs);
    if Repeats(r, segs) {
      PrefixOfRest(Joined(segs[..k]), "/" + segs[0] + "/", r);
      if k < |segs| {
        SharesNext(path, segs, k, r);
      }
      assert RestartsAt(path, segs, k);
    }
    if l :| RestartsAt(path, segs, l) {
      RestartEnds(path, segs, k, r, l);
    }
  }

  lemma RestartEnds(path: string, segs: seq<string>, k: nat, r: string, l: nat)
    requires Shares(path, segs, k) && path == Joined(segs[..k]) + r && RestartsAt(path, segs, l)
    requires forall j :: k < j <= |segs| ==> !Shares(path, segs, j)
    requires forall i :: 0 <= i < |segs| ==> Proper(segs[i])
    ensures Repeats(r, segs)
  {
    var lead, again := Joined(segs[..l]), "/" + segs[0] + "/";
    var rest := path[|lead|..];
    assert path == lead + rest && lead + "/" <= lead + again;
    PrefixOfRest(lead, again, rest);
    assert Shares(path, segs, l);
    if l < k {
      SharesFewer(path, segs, l + 1, k);
      SharesNext(path, segs, l, rest);
      OneSegment(segs[0], segs[l], rest);
    }
  }

  lemma RestTrimmed(lead: string, r: string)
    requires Trimmed(lead + r) && "/" <= r
    ensures Trimmed(r)
  {
    assert (lead + r)[|lead + r| - 1] == r[|r| - 1] && r[0] == '/';
  }

  lemma BeginsRelative(path: string, seg: string)
    requires Proper(seg) && "/" + seg + "/" <= path
    ensures IsRelative(path)
  {
    assert path[1] == ("/" + seg + "/")[1] == seg[0];
  }

  /** What is left of a trimmed path is trimmed, and is dropped from again exactly when the path restarts. */
  lemma LeftOver(path: string, segs: seq<string>)
    requires Trimmed(path) && IsRelative(path) && forall i :: 0 <= i < |segs| ==> Proper(segs[i])
    ensures var r := WithoutSegments(path, segs);
      Trimmed(r) && (IsRelative(r) && Repeats(r, segs) <==> Restarts(path, segs))
  {
    LeftRepeats(path, segs);
    var k := StrippedAt(path, segs);
    var r := WithoutSegments(path, segs);
    RestTrimmed(Joined(segs[..k]), r);
    if Repeats(r, segs) {
      BeginsRelative(r, segs[0]);
    }
  }

  lemma BaseProper(baseUrl: string, urlPath: UrlPath)
    ensures var segs := BaseSegments(baseUrl, urlPath); forall i :: 0 <= i < |segs| ==> Proper(segs[i])
  {
    var path := urlPath(Trim(baseUrl));
    if path.Some? {
      SegmentsProper(path.value);
    }
  }

  /** Normalising once more changes nothing exactly when the trimmed endpoint is not a path that repeats
      base segments and then begins with the base path again. */
  lemma EndpointIdempotent(endpoint: string, baseUrl: string, urlPath: UrlPath)
    ensures var once, path := Endpoint(endpoint, baseUrl, urlPath), Trim(endpoint);
      Endpoint(once, baseUrl, urlPath) == once <==>
        !(IsRelative(path) && Restarts(path, BaseSegments(baseUrl, urlPath)))
  {
    var once, path := Endpoint(endpoint, baseUrl, urlPath), Trim(endpoint);
    TrimMeaning(endpoint);
    EndpointFixed(once, baseUrl, urlPath);
    if IsRelative(path) {
      BaseProper(baseUrl, urlPath);
      LeftOver(path, BaseSegments(baseUrl, urlPath));
    }
  }

  lemma DropOne(seg: string, tail: string, baseUrl: string, urlPath: UrlPath)
    requires BaseSegments(baseUrl, urlPath) == [seg] && seg != "" && seg[0] != '/'
    requires tail != [] && tail[0] == '/' && !IsSpace(tail[|tail| - 1])
    ensures Endpoint("/" + seg + tail, baseUrl, urlPath) == tail
  {
    var path := "/" + seg + tail;
    assert path[1] == seg[0] && path[|path| - 1] == tail[|tail| - 1];
    TrimMeaning(path);
    assert "/" + seg + "/" <= path && path[|seg| + 1..] == tail;
    assert [seg][1..] == [];
    assert WithoutSegments(tail, []) == tail;
  }

  /** Normalising twice goes further than once when the first segment is repeated twice. */
  lemma EndpointNotIdempotent(seg: string, rest: string, baseUrl: string, urlPath: UrlPath)
    requires BaseSegments(baseUrl, urlPath) == [seg] && seg != "" && seg[0] != '/' && Trimmed("/" + rest)
    ensures var once := "/" + seg + ("/" + rest);
      Endpoint("/" + seg + once, baseUrl, urlPath) == once && Endpoint(once, baseUrl, urlPath) == "/" + rest
  {
    var once := "/" + seg + ("/" + rest);
    assert once[|once| - 1] == ("/" + rest)[|rest|];
    DropOne(seg, "/" + rest, baseUrl, urlPath);
    DropOne(seg, once, baseUrl, urlPath);
  }
}
