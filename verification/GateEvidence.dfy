/** What a complete report is evidence of, in terms of the JSON alone. */
module GateEvidence {
  import opened Wrappers
  import opened Json
  import opened Gate

  // ----- the evidence -----

  predicate IsName(j: Json) { j.Str? && j.s != "" }

  /** A check that says what was observed and whose two outcomes agree. */
  predicate GoodCheck(check: Json) {
    && Get(check, "source") in {Str("official"), Str("harness"), Str("supplemental")}
    && IsName(Get(check, "name")) && (Get(check, "scenario") == Null || IsName(Get(check, "scenario")))
    && (Get(check, "check_id") == Null || IsName(Get(check, "check_id")))
    && Get(check, "status") in {Str("PASS"), Str("FAIL"), Str("SKIP")}
    && Get(check, "success") == Bool(Get(check, "status") != Str("FAIL"))
  }

  /** A check that shows that a scenario ran. */
  predicate ShowsScenario(check: Json, scenario: string) {
    && Get(check, "source") in {Str("official"), Str("harness")}
    && (Get(check, "scenario") == Str(scenario) || (Get(check, "scenario") == Null && scenario == ""))
  }

  predicate OfKind(c: Json, mode: string, transport: string) {
    Get(c, "mode") == Str(mode) && Get(c, "transport") == Str(transport)
  }

  /** Case `i` is the only one of its mode and transport, and has these checks. */
  predicate OnlyCase(cases: seq<Json>, i: int, mode: string, transport: string, checks: seq<Json>) {
    && 0 <= i < |cases| && OfKind(cases[i], mode, transport) && Get(cases[i], "checks") == List(checks)
    && forall j :: 0 <= j < |cases| && OfKind(cases[j], mode, transport) ==> j == i
  }

  /** A mode ran over a transport, with these checks. */
  ghost predicate Ran(report: Json, mode: string, transport: string, checks: seq<Json>) {
    && checks != [] && (forall k :: 0 <= k < |checks| ==> GoodCheck(checks[k]))
    && Get(report, "cases").List? && exists i :: OnlyCase(Get(report, "cases").items, i, mode, transport, checks)
  }

  predicate Shown(checks: seq<Json>, scenario: string) {
    exists k :: 0 <= k < |checks| && ShowsScenario(checks[k], scenario)
  }

  ghost predicate ShowExactly(checks: seq<Json>, scenarios: seq<string>) {
    forall scenario :: Shown(checks, scenario) <==> scenario in scenarios
  }

  ghost predicate ModeEvidence(report: Json, mode: string, catalog: Catalog) {
    && Get(Get(Get(report, "officialConformance"), "scenarios"), mode) == List(Strings(catalog(mode)))
    && (exists checks :: Ran(report, mode, "stdio", checks))
    && exists checks :: Ran(report, mode, "official-http", checks) && ShowExactly(checks, catalog(mode))
  }

  predicate HeaderEvidence(report: Json) {
    && Get(report, "schemaVersion") == Num(4) && Get(Get(report, "versionCheck"), "success") == Bool(true)
    && Get(report, "modernFeatureEnablement") == Bool(true)
    && var official := Get(report, "officialConformance");
       && Get(official, "repository") == Str("modelcontextprotocol/conformance")
       && Get(official, "gitRef") == Str("49103de6ed70804e940637bf3e9e29e4a3f54e64")
       && Get(official, "authenticationIncluded") == Bool(true) && Get(official, "scenarios").Object?
  }

  predicate IsMode(j: Json) { j in {Str("2025-06-18"), Str("2025-11-25"), Str("2026-07-28")} }

  /** Every case is an object, and those of the three modes name a transport, no two the same. */
  predicate CasesEvidence(cases: seq<Json>) {
    && (forall i :: 0 <= i < |cases| ==> cases[i].Object?)
    && (forall i :: 0 <= i < |cases| && IsMode(Get(cases[i], "mode")) ==> Get(cases[i], "transport").Str?)
    && forall i, j ::
         0 <= i < j < |cases| && IsMode(Get(cases[i], "mode")) ==>
           Get(cases[i], "mode") != Get(cases[j], "mode") || Get(cases[i], "transport") != Get(cases[j], "transport")
  }

  ghost predicate FullEvidence(report: Json, catalog: Catalog) {
    && HeaderEvidence(report) && Get(report, "cases").List? && CasesEvidence(Get(report, "cases").items)
    && forall mode :: IsMode(Str(mode)) ==> ModeEvidence(report, mode, catalog)
  }

  // ----- the parts of completeness -----

  lemma GoodIsWellFormed(mode: string, transport: string, check: Json)
    ensures GoodCheck(check) <==> WellFormed(mode, transport, check)
  {
  }

  lemma HeaderMeans(report: Json)
    ensures Header(report) <==> HeaderEvidence(report)
  {
  }

  lemma ModeMeans(j: Json)
    ensures IsMode(j) <==> j.Str? && j.s in MODES
  {
  }

  lemma CasesMean(cases: seq<Json>)
    ensures ProperCases(cases) <==> CasesEvidence(cases)
  {
    forall i | 0 <= i < |cases|
      ensures IsMode(Get(cases[i], "mode")) <==> RequiredMode(cases[i])
    {
      ModeMeans(Get(cases[i], "mode"));
    }
    if CasesEvidence(cases) {
      forall i, j | 0 <= i < j < |cases| && RequiredMode(cases[i]) && RequiredMode(cases[j])
        ensures !SameCase(cases[i], cases[j])
      {
      }
    }
  }

  lemma OneOfAKind(cases: seq<Json>, i: int, j: int, mode: string, transport: string)
    requires ProperCases(cases) && mode in MODES && 0 <= i < |cases| && 0 <= j < |cases|
    requires OfKind(cases[i], mode, transport) && OfKind(cases[j], mode, transport)
    ensures i == j
  {
    assert RequiredMode(cases[i]) && RequiredMode(cases[j]);
    assert SameCase(cases[i], cases[j]) && SameCase(cases[j], cases[i]);
  }

  lemma {:induction false} FoundAt(cases: seq<Json>, mode: string, transport: string) returns (i: int)
    ensures FirstCase(cases, mode, transport).None? ==>
      forall j :: 0 <= j < |cases| ==> !OfKind(cases[j], mode, transport)
    ensures FirstCase(cases, mode, transport).Some? ==>
      && 0 <= i < |cases| && OfKind(cases[i], mode, transport) && FirstCase(cases, mode, transport) == Some(cases[i])
  {
    i := 0;
    if cases != [] {
      var front := cases[..|cases| - 1];
      i := FoundAt(front, mode, transport);
      if FirstCase(front, mode, transport).None? {
        i := |cases| - 1;
        assert forall j :: 0 <= j < |front| ==> front[j] == cases[j];
      }
    }
  }

  predicate AllGood(checks: seq<Json>) {
    forall k :: 0 <= k < |checks| ==> GoodCheck(checks[k])
  }

  lemma AllGoodMeans(mode: string, transport: string, checks: seq<Json>)
    ensures ProperChecks(mode, transport, checks) <==> checks != [] && AllGood(checks)
  {
    forall k | 0 <= k < |checks|
      ensures GoodCheck(checks[k]) <==> WellFormed(mode, transport, checks[k])
    {
      GoodIsWellFormed(mode, transport, checks[k]);
    }
  }

  /** In a report with proper cases a mode ran with the checks of its first case, or did not run. */
  lemma RanMeans(report: Json, mode: string, transport: string, checks: seq<Json>)
    requires mode in MODES && Get(report, "cases").List? && ProperCases(Cases(report))
    ensures Ran(report, mode, transport, checks) <==>
      CaseComplete(Cases(report), mode, transport) && checks == CaseChecks(Cases(report), mode, transport)
  {
    var cases := Cases(report);
    var i := FoundAt(cases, mode, transport);
    AllGoodMeans(mode, transport, CaseChecks(cases, mode, transport));
    if Ran(report, mode, transport, checks) {
      var k :| OnlyCase(cases, k, mode, transport, checks);
      OneOfAKind(cases, i, k, mode, transport);
      assert AllGood(checks);
    }
    if CaseComplete(cases, mode, transport) && checks == CaseChecks(cases, mode, transport) {
      forall j | 0 <= j < |cases| && OfKind(cases[j], mode, transport)
        ensures j == i
      {
        OneOfAKind(cases, i, j, mode, transport);
      }
      assert OnlyCase(cases, i, mode, transport, checks);
      assert AllGood(checks);
    }
  }

  lemma NoteShows(mode: string, check: Json, id: Identity, st: Status, scenario: string)
    requires Notes(mode, HTTP, check, id, st)
    ensures Shows(id, mode) && id.scenario == scenario <==> ShowsScenario(check, scenario)
  {
  }

  lemma RecordedHere(report: Json, mode: string, id: Identity, st: Status)
    requires mode in MODES && IsFull(report) && id.mode == mode && id.transport == HTTP
    ensures Recorded(report, id, st) <==> NotedIn(mode, HTTP, CaseChecks(Cases(report), mode, HTTP), id, st)
  {
    assert TRANSPORTS[1] == HTTP;
  }

  lemma NotedHere(mode: string, checks: seq<Json>, k: int) returns (id: Identity, st: Status)
    requires 0 <= k < |checks| && WellFormed(mode, HTTP, checks[k])
    ensures id.mode == mode && id.transport == HTTP
    ensures Notes(mode, HTTP, checks[k], id, st) && NotedIn(mode, HTTP, checks, id, st)
  {
    id, st := CheckIdentity(mode, HTTP, checks[k]).value, CheckStatus(checks[k]).value;
  }

  lemma ObservedIsShown(report: Json, mode: string, scenario: string)
    requires mode in MODES && IsFull(report) && Observed(report, mode, scenario)
    ensures Shown(CaseChecks(Cases(report), mode, HTTP), scenario)
  {
    var checks := CaseChecks(Cases(report), mode, HTTP);
    var id, st :| Recorded(report, id, st) && Shows(id, mode) && id.scenario == scenario;
    RecordedHere(report, mode, id, st);
    var k :| 0 <= k < |checks| && Notes(mode, HTTP, checks[k], id, st);
    NoteShows(mode, checks[k], id, st, scenario);
  }

  lemma ShownIsObserved(report: Json, mode: string, scenario: string)
    requires mode in MODES && IsFull(report) && CaseComplete(Cases(report), mode, HTTP)
    requires Shown(CaseChecks(Cases(report), mode, HTTP), scenario)
    ensures Observed(report, mode, scenario)
  {
    var checks := CaseChecks(Cases(report), mode, HTTP);
    var k :| 0 <= k < |checks| && ShowsScenario(checks[k], scenario);
    var id, st := NotedHere(mode, checks, k);
    NoteShows(mode, checks[k], id, st, scenario);
    RecordedHere(report, mode, id, st);
  }

  lemma ScenariosMean(report: Json, mode: string, catalog: Catalog)
    requires mode in MODES && IsFull(report) && CaseComplete(Cases(report), mode, HTTP)
    ensures AllScenarios(report, mode, catalog)
       <==> ShowExactly(CaseChecks(Cases(report), mode, HTTP), catalog(mode))
  {
    forall scenario
      ensures Observed(report, mode, scenario) <==> Shown(CaseChecks(Cases(report), mode, HTTP), scenario)
    {
      if Observed(report, mode, scenario) {
        ObservedIsShown(report, mode, scenario);
      }
      if Shown(CaseChecks(Cases(report), mode, HTTP), scenario) {
        ShownIsObserved(report, mode, scenario);
      }
    }
  }

  lemma RanSomehow(report: Json, mode: string, transport: string)
    requires mode in MODES && Get(report, "cases").List? && ProperCases(Cases(report))
    ensures (exists checks :: Ran(report, mode, transport, checks)) <==> CaseComplete(Cases(report), mode, transport)
  {
    if checks :| Ran(report, mode, transport, checks) {
      RanMeans(report, mode, transport, checks);
    }
    RanMeans(report, mode, transport, CaseChecks(Cases(report), mode, transport));
  }

  lemma ModeMeansComplete(report: Json, mode: string, catalog: Catalog)
    requires mode in MODES && IsFull(report) && Get(report, "cases").List? && ProperCases(Cases(report))
    ensures ModeComplete(report, mode, catalog) <==> ModeEvidence(report, mode, catalog)
  {
    var http := CaseChecks(Cases(report), mode, HTTP);
    RanSomehow(report, mode, STDIO);
    RanSomehow(report, mode, HTTP);
    RanMeans(report, mode, HTTP, http);
    assert TRANSPORTS[0] == STDIO && TRANSPORTS[1] == HTTP;
    if CaseComplete(Cases(report), mode, HTTP) {
      ScenariosMean(report, mode, catalog);
      if checks :| Ran(report, mode, HTTP, checks) && ShowExactly(checks, catalog(mode)) {
        RanMeans(report, mode, HTTP, checks);
      }
    }
  }

  lemma ModesMean(report: Json, catalog: Catalog)
    requires IsFull(report) && Get(report, "cases").List? && ProperCases(Cases(report))
    ensures (forall m :: 0 <= m < |MODES| ==> ModeComplete(report, MODES[m], catalog))
       <==> forall mode :: IsMode(Str(mode)) ==> ModeEvidence(report, mode, catalog)
  {
    forall mode
      ensures IsMode(Str(mode)) <==> mode in MODES
      ensures mode in MODES ==> (ModeComplete(report, mode, catalog) <==> ModeEvidence(report, mode, catalog))
    {
      ModeMeans(Str(mode));
      if mode in MODES {
        ModeMeansComplete(report, mode, catalog);
      }
    }
  }

  /** A full report is complete exactly when it is evidence: for each of the three modes there is one case
      for each transport, with checks that are all good, and the scenarios that the official checks over
      HTTP show are exactly those of the catalogue. */
  lemma FullComplete(report: Json, catalog: Catalog)
    requires Get(report, "baselineKind") == Null
    ensures Complete(report, catalog) <==> FullEvidence(report, catalog)
  {
    HeaderMeans(report);
    if Get(report, "cases").List? {
      CasesMean(Cases(report));
      if ProperCases(Cases(report)) {
        ModesMean(report, catalog);
      }
    }
  }

  // ----- which checks a full report records -----

  /** What a check says of its identity and its outcome; without an identifier its stable name is taken. */
  predicate Observes(check: Json, id: Identity, st: Status) {
    && Get(check, "source") == Str(id.source)
    && Get(check, "scenario") == (if id.scenario == "" then Null else Str(id.scenario))
    && (if Get(check, "check_id") == Null then
          IsName(Get(check, "name")) && StableName(Get(check, "name").s) == id.checkId
        else Get(check, "check_id") == Str(id.checkId))
    && Get(check, "status") == Str(match st case Pass => "PASS" case Fail => "FAIL" case Skip => "SKIP")
  }

  lemma ObservesMeans(check: Json, id: Identity, st: Status)
    ensures Notes(id.mode, id.transport, check, id, st) <==> GoodCheck(check) && Observes(check, id, st)
  {
    GoodIsWellFormed(id.mode, id.transport, check);
  }

  predicate IsTransport(transport: string) { transport == "stdio" || transport == "official-http" }

  /** The check was observed, and well described, in the only case of its mode and transport. */
  ghost predicate SeenInCase(cases: seq<Json>, id: Identity, st: Status) {
    exists i, checks: seq<Json>, k ::
      && OnlyCase(cases, i, id.mode, id.transport, checks) && 0 <= k < |checks|
      && GoodCheck(checks[k]) && Observes(checks[k], id, st)
  }

  /** A full report with proper cases records exactly what was observed in them. */
  lemma FullRecorded(report: Json, id: Identity, st: Status)
    requires Get(report, "baselineKind") == Null
    requires Get(report, "cases").List? && CasesEvidence(Get(report, "cases").items)
    ensures Recorded(report, id, st) <==>
      IsMode(Str(id.mode)) && IsTransport(id.transport) && SeenInCase(Get(report, "cases").items, id, st)
  {
    var cases := Get(report, "cases").items;
    CasesMean(cases);
    ModeMeans(Str(id.mode));
    TransportMeans(id.transport);
    if id.mode in MODES {
      SeenMeans(cases, id, st);
    }
  }

  lemma TransportMeans(transport: string)
    ensures IsTransport(transport) <==> transport in TRANSPORTS
  {
    assert TRANSPORTS[0] == STDIO && TRANSPORTS[1] == HTTP;
  }

  lemma SeenMeans(cases: seq<Json>, id: Identity, st: Status)
    requires ProperCases(cases) && id.mode in MODES
    ensures NotedIn(id.mode, id.transport, CaseChecks(cases, id.mode, id.transport), id, st)
       <==> SeenInCase(cases, id, st)
  {
    var found := CaseChecks(cases, id.mode, id.transport);
    var at := FoundAt(cases, id.mode, id.transport);
    if NotedIn(id.mode, id.transport, found, id, st) {
      var k :| 0 <= k < |found| && Notes(id.mode, id.transport, found[k], id, st);
      ObservesMeans(found[k], id, st);
      forall j | 0 <= j < |cases| && OfKind(cases[j], id.mode, id.transport)
        ensures j == at
      {
        OneOfAKind(cases, at, j, id.mode, id.transport);
      }
      assert OnlyCase(cases, at, id.mode, id.transport, found);
    }
    if SeenInCase(cases, id, st) {
      var i, checks: seq<Json>, k :|
        && OnlyCase(cases, i, id.mode, id.transport, checks) && 0 <= k < |checks|
        && GoodCheck(checks[k]) && Observes(checks[k], id, st);
      OneOfAKind(cases, at, i, id.mode, id.transport);
      assert checks == found;
      ObservesMeans(checks[k], id, st);
    }
  }

  // ----- compact baselines -----

  /** A record with the five fields of an identity. */
  predicate Names(record: Json, id: Identity) {
    && Get(record, "mode") == Str(id.mode) && Get(record, "transport") == Str(id.transport)
    && Get(record, "source") == Str(id.source) && Get(record, "scenario") == Str(id.scenario)
    && Get(record, "check_id") == Str(id.checkId)
  }

  /** The identities that a record can have. */
  predicate Nameable(id: Identity) {
    && IsMode(Str(id.mode)) && IsTransport(id.transport)
    && id.source in {"official", "harness", "supplemental"} && id.checkId != ""
  }

  lemma RecordMeans(record: Json, id: Identity)
    ensures RecordIdentity(record) == Some(id) <==> Nameable(id) && Names(record, id)
  {
    ModeMeans(Str(id.mode));
    TransportMeans(id.transport);
  }

  /** A record that names an identity. */
  ghost predicate Named(record: Json) {
    exists id :: Nameable(id) && Names(record, id)
  }

  lemma NamedMeans(record: Json)
    ensures Named(record) <==> RecordIdentity(record).Some?
  {
    if RecordIdentity(record).Some? {
      RecordMeans(record, RecordIdentity(record).value);
    }
    if id :| Nameable(id) && Names(record, id) {
      RecordMeans(record, id);
    }
  }

  predicate SameFields(a: Json, b: Json) {
    && Get(a, "mode") == Get(b, "mode") && Get(a, "transport") == Get(b, "transport")
    && Get(a, "source") == Get(b, "source") && Get(a, "scenario") == Get(b, "scenario")
    && Get(a, "check_id") == Get(b, "check_id")
  }

  lemma SameMeans(a: Json, b: Json)
    requires RecordIdentity(a).Some? && RecordIdentity(b).Some?
    ensures SameFields(a, b) <==> RecordIdentity(a) == RecordIdentity(b)
  {
    RecordMeans(a, RecordIdentity(a).value);
    RecordMeans(b, RecordIdentity(b).value);
  }

  /** Every record names an identity, and no two the same. */
  ghost predicate BucketEvidence(j: Json) {
    && j.List? && (forall i :: 0 <= i < |j.items| ==> Named(j.items[i]))
    && forall i, k :: 0 <= i < k < |j.items| ==> !SameFields(j.items[i], j.items[k])
  }

  lemma BucketMeans(j: Json)
    ensures BucketEvidence(j) <==> j.List? && ProperBucket(j.items)
  {
    if j.List? {
      forall i | 0 <= i < |j.items|
        ensures Named(j.items[i]) <==> RecordIdentity(j.items[i]).Some?
      {
        NamedMeans(j.items[i]);
      }
      forall i, k | 0 <= i < k < |j.items| && RecordIdentity(j.items[i]).Some? && RecordIdentity(j.items[k]).Some?
        ensures SameFields(j.items[i], j.items[k]) <==> RecordIdentity(j.items[i]) == RecordIdentity(j.items[k])
      {
        SameMeans(j.items[i], j.items[k]);
      }
    }
  }

  function Checks(report: Json, st: Status): Json {
    Get(Get(report, "checks"), if st.Pass? then "passing" else "failing")
  }

  /** A compact report lists a check as passing or as failing. */
  ghost predicate InBucket(report: Json, id: Identity, st: Status) {
    && !st.Skip? && Checks(report, st).List? && Nameable(id)
    && exists i :: 0 <= i < |Checks(report, st).items| && Names(Checks(report, st).items[i], id)
  }

  lemma CompactRecorded(report: Json, id: Identity, st: Status)
    requires Get(report, "baselineKind") == Str("mcp-conformance-regression-baseline-v1")
    ensures Recorded(report, id, st) <==> InBucket(report, id, st)
  {
    var bucket := Bucket(report, st);
    if bucket.List? {
      forall i | 0 <= i < |bucket.items|
        ensures RecordIdentity(bucket.items[i]) == Some(id) <==> Nameable(id) && Names(bucket.items[i], id)
      {
        RecordMeans(bucket.items[i], id);
      }
    }
  }

  ghost predicate HasRecord(report: Json, mode: string, transport: string) {
    exists id, st :: InBucket(report, id, st) && id.mode == mode && id.transport == transport
  }

  ghost predicate HasScenario(report: Json, mode: string, scenario: string) {
    exists id, st :: InBucket(report, id, st) && id.mode == mode && id.transport == "official-http"
                     && id.source in {"official", "harness"} && id.scenario == scenario
  }

  ghost predicate ListExactly(report: Json, mode: string, scenarios: seq<string>) {
    forall scenario :: HasScenario(report, mode, scenario) <==> scenario in scenarios
  }

  ghost predicate ModeListing(report: Json, mode: string, catalog: Catalog) {
    && Get(Get(Get(report, "officialConformance"), "scenarios"), mode) == List(Strings(catalog(mode)))
    && HasRecord(report, mode, "stdio") && HasRecord(report, mode, "official-http")
    && ListExactly(report, mode, catalog(mode))
  }

  ghost predicate CompactEvidence(report: Json, catalog: Catalog) {
    && HeaderEvidence(report)
    && Get(report, "requiredModes") == List([Str("2025-06-18"), Str("2025-11-25"), Str("2026-07-28")])
    && Get(report, "transports") in {List([Str("stdio"), Str("official-http")]),
                                     List([Str("official-http"), Str("stdio")])}
    && BucketEvidence(Checks(report, Pass)) && BucketEvidence(Checks(report, Fail))
    && forall mode :: IsMode(Str(mode)) ==> ModeListing(report, mode, catalog)
  }

  lemma ScenarioListed(report: Json, mode: string, scenario: string)
    requires Get(report, "baselineKind") == Str(KIND)
    ensures Observed(report, mode, scenario) <==> HasScenario(report, mode, scenario)
  {
    if Observed(report, mode, scenario) {
      var id, st :| Recorded(report, id, st) && Shows(id, mode) && id.scenario == scenario;
      CompactRecorded(report, id, st);
    }
    if HasScenario(report, mode, scenario) {
      var id, st :| InBucket(report, id, st) && id.mode == mode && id.transport == "official-http"
                    && id.source in {"official", "harness"} && id.scenario == scenario;
      CompactRecorded(report, id, st);
      assert Shows(id, mode);
    }
  }

  lemma ScenariosListed(report: Json, mode: string, catalog: Catalog)
    requires Get(report, "baselineKind") == Str(KIND)
    ensures AllScenarios(report, mode, catalog) <==> ListExactly(report, mode, catalog(mode))
  {
    forall scenario
      ensures Observed(report, mode, scenario) <==> HasScenario(report, mode, scenario)
    {
      ScenarioListed(report, mode, scenario);
    }
  }

  lemma TransportListed(report: Json, mode: string, transport: string)
    requires Get(report, "baselineKind") == Str(KIND)
    ensures Covers(report, mode, transport) <==> HasRecord(report, mode, transport)
  {
    if Covers(report, mode, transport) {
      var id, st :| Recorded(report, id, st) && id.mode == mode && id.transport == transport;
      CompactRecorded(report, id, st);
    }
    if HasRecord(report, mode, transport) {
      var id, st :| InBucket(report, id, st) && id.mode == mode && id.transport == transport;
      CompactRecorded(report, id, st);
    }
  }

  lemma ListingMeans(report: Json, mode: string, catalog: Catalog)
    requires Get(report, "baselineKind") == Str(KIND)
    ensures ModeListed(report, mode, catalog) <==> ModeListing(report, mode, catalog)
  {
    ScenariosListed(report, mode, catalog);
    TransportListed(report, mode, STDIO);
    TransportListed(report, mode, HTTP);
    assert TRANSPORTS[0] == STDIO && TRANSPORTS[1] == HTTP;
  }

  lemma ListingsMean(report: Json, catalog: Catalog)
    requires Get(report, "baselineKind") == Str(KIND)
    ensures (forall m :: 0 <= m < |MODES| ==> ModeListed(report, MODES[m], catalog))
       <==> forall mode :: IsMode(Str(mode)) ==> ModeListing(report, mode, catalog)
  {
    forall mode
      ensures IsMode(Str(mode)) <==> mode in MODES
      ensures ModeListed(report, mode, catalog) <==> ModeListing(report, mode, catalog)
    {
      ModeMeans(Str(mode));
      ListingMeans(report, mode, catalog);
    }
  }

  /** A compact report is complete exactly when its two lists of records are evidence: each record names
      one check, no two in a list the same, and together they show every mode over both transports and
      exactly the scenarios of the catalogue. */
  lemma BaselineComplete(report: Json, catalog: Catalog)
    requires Get(report, "baselineKind") == Str("mcp-conformance-regression-baseline-v1")
    ensures Complete(report, catalog) <==> CompactEvidence(report, catalog)
  {
    HeaderMeans(report);
    BucketMeans(Checks(report, Pass));
    BucketMeans(Checks(report, Fail));
    ListingsMean(report, catalog);
    assert Strings(MODES) == [Str("2025-06-18"), Str("2025-11-25"), Str("2026-07-28")];
  }

  /** A report of any other kind is not complete. */
  lemma OtherKind(report: Json, catalog: Catalog)
    requires Get(report, "baselineKind") !in {Null, Str("mcp-conformance-regression-baseline-v1")}
    ensures !Complete(report, catalog) && forall id, st :: !Recorded(report, id, st)
  {
  }
}
