/** The cases that the review runner runs, and those that the reader of its report requires. */
module ReviewPlan {
  import opened Json
  import opened Keyed
  import opened Review
  import opened ReviewWriter

  const MODERN := "2026-07-28"
  const REVIEW_PROFILE := "review-regressions"
  const HTTP_PROFILES := [REVIEW_PROFILE, "repeated-cursor", "discovery-mismatched-id", "discovery-null-id",
                          "sse-cr-comments", "sse-comment-flood"]
  const BOUNDARY_TRANSPORTS := ["stdio", "http"]
  const BOUNDARY_PROFILES := ["catalog-max", "catalog-over-limit"]

  datatype Planned = Planned(mode: string, transport: string, profile: string)

  function TransportName(transport: string, profile: string): string { "review-" + transport + ":" + profile }

  /** The mode and transport under which a case is reported. */
  function CaseKey(p: Planned): Case { (p.mode, TransportName(p.transport, p.profile)) }

  // ----- the two lists -----

  function RequiredCases(): set<Case> {
    (set mode | mode in MODES :: (mode, TransportName("stdio", REVIEW_PROFILE)))
    + (set profile | profile in HTTP_PROFILES :: (MODERN, TransportName("http", profile)))
    + (set mode, transport, profile | mode in MODES && transport in BOUNDARY_TRANSPORTS && profile in BOUNDARY_PROFILES
         :: (mode, TransportName(transport, profile)))
  }

  /** What is run in a mode: the review over stdio, in the modern mode all profiles over HTTP, and the
      catalogue limits over both. */
  predicate Runs(p: Planned) { Reviewing(p) || Bounding(p) }

  predicate Reviewing(p: Planned) {
    || (p.transport == "stdio" && p.profile == REVIEW_PROFILE)
    || (p.mode == MODERN && p.transport == "http" && p.profile in HTTP_PROFILES)
  }

  predicate Bounding(p: Planned) { p.transport in BOUNDARY_TRANSPORTS && p.profile in BOUNDARY_PROFILES }

  // ----- adding to a plan -----

  lemma DistinctSnoc<T>(s: seq<T>, x: T)
    requires Distinct(s) && x !in s
    ensures Distinct(s + [x])
  {
  }

  lemma Prefix<T>(s: seq<T>, n: nat)
    requires n < |s|
    ensures s[..n + 1] == s[..n] + [s[n]] && (Distinct(s) ==> s[n] !in s[..n])
  {
  }

  lemma ProfilesDiffer()
    ensures Distinct(HTTP_PROFILES) && Distinct(BOUNDARY_PROFILES) && Distinct(BOUNDARY_TRANSPORTS)
    ensures forall profile :: profile in BOUNDARY_PROFILES ==> profile !in HTTP_PROFILES
  {
    var h := HTTP_PROFILES;
    assert |h[0]| == 18 && |h[1]| == 15 && |h[2]| == 23 && |h[3]| == 17 && |h[4]| == 15 && |h[5]| == 17;
    assert h[1][0] != h[4][0] && h[3][0] != h[5][0];
    var b := BOUNDARY_PROFILES;
    assert |b[0]| == 11 && |b[1]| == 18 && b[1][0] != h[0][0];
    assert |BOUNDARY_TRANSPORTS[0]| == 5 && |BOUNDARY_TRANSPORTS[1]| == 4;
  }

  /** A plan grew by exactly the cases of one mode and transport with one of these profiles, and repeats
      nothing if it did not before and had none of them. */
  ghost predicate Grew(before: seq<Planned>, plan: seq<Planned>, mode: string, transport: string,
                       profiles: seq<string>) {
    && (forall p :: p in plan <==> p in before || (p.mode == mode && p.transport == transport && p.profile in profiles))
    && (Distinct(before) && Lacks(before, mode, transport, profiles) ==> Distinct(plan))
  }

  ghost predicate Lacks(plan: seq<Planned>, mode: string, transport: string, profiles: seq<string>) {
    forall p :: p in plan ==> !(p.mode == mode && p.transport == transport && p.profile in profiles)
  }

  lemma GrowOne(before: seq<Planned>, plan: seq<Planned>, mode: string, transport: string, profiles: seq<string>,
                k: nat)
    requires k < |profiles| && Distinct(profiles) && Grew(before, plan, mode, transport, profiles[..k])
    ensures Grew(before, plan + [Planned(mode, transport, profiles[k])], mode, transport, profiles[..k + 1])
  {
    var next := Planned(mode, transport, profiles[k]);
    Prefix(profiles, k);
    if Distinct(before) && Lacks(before, mode, transport, profiles[..k + 1]) {
      assert profiles[k] in profiles[..k + 1];
      assert next !in before && next !in plan;
      DistinctSnoc(plan, next);
    }
  }

  /** The loop over the profiles of a mode and a transport. */
  method AddProfiles(before: seq<Planned>, mode: string, transport: string, profiles: seq<string>)
    returns (plan: seq<Planned>)
    requires Distinct(profiles)
    ensures Grew(before, plan, mode, transport, profiles)
  {
    plan := before;
    for k := 0 to |profiles|
      invariant Grew(before, plan, mode, transport, profiles[..k])
    {
      GrowOne(before, plan, mode, transport, profiles, k);
      plan := plan + [Planned(mode, transport, profiles[k])];
    }
    assert profiles[..|profiles|] == profiles;
  }

  // ----- planning a run -----

  /** What a plan holds after the review cases of some modes. */
  ghost predicate Reviewed(plan: seq<Planned>, modes: seq<string>) {
    && (forall p :: p in plan <==> p.mode in modes && Reviewing(p)) && (Distinct(modes) ==> Distinct(plan))
  }

  method AddReviews(before: seq<Planned>, mode: string) returns (plan: seq<Planned>)
    ensures forall p :: p in plan <==> p in before || (p.mode == mode && Reviewing(p))
    ensures Distinct(before) && (forall p :: p in before ==> p.mode != mode) ==> Distinct(plan)
  {
    ProfilesDiffer();
    plan := AddProfiles(before, mode, "stdio", [REVIEW_PROFILE]);
    if mode == MODERN {
      plan := AddProfiles(plan, mode, "http", HTTP_PROFILES);
    }
  }

  method PlanReviews(modes: seq<string>) returns (plan: seq<Planned>)
    ensures Reviewed(plan, modes)
  {
    plan := [];
    for n := 0 to |modes|
      invariant Reviewed(plan, modes[..n])
    {
      Prefix(modes, n);
      plan := AddReviews(plan, modes[n]);
    }
    assert modes[..|modes|] == modes;
  }

  lemma KindsDiffer(p: Planned)
    ensures !(Reviewing(p) && Bounding(p))
  {
    ProfilesDiffer();
    assert HTTP_PROFILES[0] == REVIEW_PROFILE;
  }

  /** The loop over the transports for the catalogue limits of a mode. */
  method AddBoundaries(before: seq<Planned>, mode: string) returns (plan: seq<Planned>)
    ensures forall p :: p in plan <==> p in before || (p.mode == mode && Bounding(p))
    ensures Distinct(before) && (forall p :: p in before && p.mode == mode ==> !Bounding(p)) ==> Distinct(plan)
  {
    ProfilesDiffer();
    plan := before;
    for k := 0 to |BOUNDARY_TRANSPORTS|
      invariant forall p :: p in plan <==>
        p in before
        || (p.mode == mode && p.transport in BOUNDARY_TRANSPORTS[..k] && p.profile in BOUNDARY_PROFILES)
      invariant Distinct(before) && (forall p :: p in before && p.mode == mode ==> !Bounding(p)) ==> Distinct(plan)
    {
      Prefix(BOUNDARY_TRANSPORTS, k);
      plan := AddProfiles(plan, mode, BOUNDARY_TRANSPORTS[k], BOUNDARY_PROFILES);
    }
    assert BOUNDARY_TRANSPORTS[..|BOUNDARY_TRANSPORTS|] == BOUNDARY_TRANSPORTS;
  }

  /** What is planned: everything that runs in one of the modes, once if no mode is named twice. */
  ghost predicate IsPlan(plan: seq<Planned>, modes: seq<string>) {
    && (forall p :: p in plan <==> p.mode in modes && Runs(p)) && (Distinct(modes) ==> Distinct(plan))
  }

  ghost predicate PartlyBounded(plan: seq<Planned>, modes: seq<string>, n: nat)
    requires n <= |modes|
  {
    && (forall p :: p in plan <==> (p.mode in modes && Reviewing(p)) || (p.mode in modes[..n] && Bounding(p)))
    && (Distinct(modes) ==> Distinct(plan))
  }

  /** The cases of a run. */
  method PlanCases(modes: seq<string>) returns (plan: seq<Planned>)
    ensures IsPlan(plan, modes)
  {
    plan := PlanReviews(modes);
    for n := 0 to |modes|
      invariant PartlyBounded(plan, modes, n)
    {
      Prefix(modes, n);
      forall p
        ensures !(Reviewing(p) && Bounding(p))
      {
        KindsDiffer(p);
      }
      plan := AddBoundaries(plan, modes[n]);
    }
    assert modes[..|modes|] == modes;
  }

  // ----- a run is accepted -----

  lemma KeysDiffer(p: Planned, q: Planned)
    requires Runs(p) && Runs(q) && CaseKey(p) == CaseKey(q)
    ensures p == q
  {
    var a, b := TransportName(p.transport, p.profile), TransportName(q.transport, q.profile);
    TransportStarts(p);
    TransportStarts(q);
    var n := 8 + |p.transport|;
    assert a[n..] == p.profile && b[8 + |q.transport|..] == q.profile;
  }

  lemma TransportStarts(p: Planned)
    requires Runs(p)
    ensures p.transport == "stdio" || p.transport == "http"
    ensures TransportName(p.transport, p.profile)[7] == p.transport[0]
  {
    assert TransportName(p.transport, p.profile) == "review-" + (p.transport + (":" + p.profile));
  }

  lemma RequiredMeans(c: Case)
    ensures c in RequiredCases() <==> exists p :: Runs(p) && p.mode in MODES && CaseKey(p) == c
  {
    assert MODERN == MODES[2] && BOUNDARY_TRANSPORTS[0] == "stdio" && HTTP_PROFILES[0] == REVIEW_PROFILE;
    if c in RequiredCases() {
      if mode :| mode in MODES && c == (mode, TransportName("stdio", REVIEW_PROFILE)) {
        assert CaseKey(Planned(mode, "stdio", REVIEW_PROFILE)) == c;
      } else if profile :| profile in HTTP_PROFILES && c == (MODERN, TransportName("http", profile)) {
        assert CaseKey(Planned(MODERN, "http", profile)) == c;
      } else {
        var mode, transport, profile :|
          && mode in MODES && transport in BOUNDARY_TRANSPORTS && profile in BOUNDARY_PROFILES
          && c == (mode, TransportName(transport, profile));
        assert CaseKey(Planned(mode, transport, profile)) == c;
      }
    }
  }

  /** The results of a run are those of its plan, one by one. */
  predicate Follows(cases: seq<CaseResult>, plan: seq<Planned>) {
    |cases| == |plan| && forall i :: 0 <= i < |cases| ==> Key(cases[i]) == CaseKey(plan[i])
  }

  lemma PlanCovers(cases: seq<CaseResult>, plan: seq<Planned>)
    requires IsPlan(plan, MODES) && Follows(cases, plan)
    ensures OncePerCase(cases) && Covering(cases, RequiredCases())
  {
    assert Distinct(MODES) by {
      assert MODES[0][3] != MODES[2][3] && MODES[1][3] != MODES[2][3] && MODES[0][5] != MODES[1][5];
    }
    forall i, j | 0 <= i < j < |cases|
      ensures Key(cases[i]) != Key(cases[j])
    {
      assert plan[i] in plan && plan[j] in plan && plan[i] != plan[j];
      if CaseKey(plan[i]) == CaseKey(plan[j]) {
        KeysDiffer(plan[i], plan[j]);
      }
    }
    forall i | 0 <= i < |cases|
      ensures Key(cases[i]) in RequiredCases()
    {
      assert plan[i] in plan;
      RequiredMeans(CaseKey(plan[i]));
    }
    forall c | c in RequiredCases()
      ensures exists i :: 0 <= i < |cases| && Key(cases[i]) == c
    {
      RequiredMeans(c);
      var p :| Runs(p) && p.mode in MODES && CaseKey(p) == c;
      var i :| 0 <= i < |plan| && plan[i] == p;
      assert Key(cases[i]) == c;
    }
  }

  /** Whatever the outcomes of its checks, the report of a run in the three modes is consistent, exactly
      when every case made checks with names of their own. */
  lemma RunAccepted(cases: seq<CaseResult>, plan: seq<Planned>)
    requires IsPlan(plan, MODES) && Follows(cases, plan)
    ensures Consistent(WriteReport(cases, MODES), RequiredCases()) <==> AllProbed(cases)
  {
    PlanCovers(cases, plan);
    WrittenConsistent(cases, MODES, RequiredCases());
  }
}
