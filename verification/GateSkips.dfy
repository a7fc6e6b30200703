/** A report in which everything that is required was only skipped, for any catalogue of scenarios. */
module GateSkips {
  import opened Wrappers
  import opened Json
  import opened Gate
  import opened GateTheorems

  /** Every scenario of a required mode has a name. */
  predicate Named(catalog: Catalog) {
    forall mode :: mode in MODES ==> "" !in catalog(mode)
  }

  const PROBE := Object(map["source" := Str("supplemental"), "name" := Str("probe"), "status" := Str("SKIP"),
                            "success" := Bool(true)])

  function SkippedScenario(scenario: string): Json {
    Object(map["source" := Str("official"), "scenario" := Str(scenario), "name" := Str(scenario),
               "status" := Str("SKIP"), "success" := Bool(true)])
  }

  /** A skipped probe, and one skipped check for each scenario. */
  function SkippedChecks(scenarios: seq<string>): (r: seq<Json>)
    ensures |r| == |scenarios| + 1 && r[0] == PROBE
    ensures forall i :: 0 <= i < |scenarios| ==> r[i + 1] == SkippedScenario(scenarios[i])
  {
    [PROBE] + seq(|scenarios|, i requires 0 <= i < |scenarios| => SkippedScenario(scenarios[i]))
  }

  function SkippedCase(key: (string, string), catalog: Catalog): Json {
    Object(map["mode" := Str(key.0), "transport" := Str(key.1), "checks" := List(SkippedChecks(catalog(key.0)))])
  }

  function SkippedCases(keys: seq<(string, string)>, catalog: Catalog): (r: seq<Json>)
    ensures |r| == |keys| && forall i :: 0 <= i < |keys| ==> r[i] == SkippedCase(keys[i], catalog)
  {
    seq(|keys|, i requires 0 <= i < |keys| => SkippedCase(keys[i], catalog))
  }

  const KEYS := [(MODES[0], STDIO), (MODES[0], HTTP), (MODES[1], STDIO), (MODES[1], HTTP),
                 (MODES[2], STDIO), (MODES[2], HTTP)]

  function AllSelected(catalog: Catalog): Json {
    Object(map mode | mode in MODES :: List(Strings(catalog(mode))))
  }

  function SkippedReport(catalog: Catalog): Json {
    Object(map[
      "schemaVersion" := Num(SCHEMA),
      "versionCheck" := Object(map["success" := Bool(true)]),
      "modernFeatureEnablement" := Bool(true),
      "automaticAuthRequired" := Bool(true),
      "officialConformance" := CompactOfficial(AllSelected(catalog)),
      "cases" := List(SkippedCases(KEYS, catalog))])
  }

  lemma SkippedCaseIs(key: (string, string), catalog: Catalog, mode: string, transport: string)
    ensures IsCase(SkippedCase(key, catalog), mode, transport) <==> key == (mode, transport)
    ensures Get(SkippedCase(key, catalog), "checks") == List(SkippedChecks(catalog(key.0)))
  {
  }

  lemma {:induction false} SkippedFirst(keys: seq<(string, string)>, catalog: Catalog, mode: string, transport: string)
    ensures FirstCase(SkippedCases(keys, catalog), mode, transport)
         == if (mode, transport) in keys then Some(SkippedCase((mode, transport), catalog)) else None
  {
    if keys != [] {
      var n := |keys| - 1;
      SkippedFirst(keys[..n], catalog, mode, transport);
      assert SkippedCases(keys, catalog)[..n] == SkippedCases(keys[..n], catalog);
      SkippedCaseIs(keys[n], catalog, mode, transport);
      assert keys == keys[..n] + [keys[n]];
    }
  }

  lemma SkippedKey(mode: string, t: nat)
    requires mode in MODES && t < |TRANSPORTS|
    ensures (mode, TRANSPORTS[t]) in KEYS
  {
    var m :| 0 <= m < |MODES| && MODES[m] == mode;
    assert KEYS[2 * m + t] == (MODES[m], TRANSPORTS[t]);
  }

  lemma CaseSkips(catalog: Catalog, mode: string, t: nat)
    requires mode in MODES && t < |TRANSPORTS|
    ensures CaseChecks(SkippedCases(KEYS, catalog), mode, TRANSPORTS[t]) == SkippedChecks(catalog(mode))
  {
    SkippedKey(mode, t);
    SkippedFirst(KEYS, catalog, mode, TRANSPORTS[t]);
    SkippedCaseIs((mode, TRANSPORTS[t]), catalog, mode, TRANSPORTS[t]);
  }

  // ----- what the skipped checks note -----

  lemma ProbeFields()
    ensures Get(PROBE, "source") == Str("supplemental") && Get(PROBE, "name") == Str("probe")
    ensures Get(PROBE, "status") == Str("SKIP") && Get(PROBE, "success") == Bool(true)
    ensures Get(PROBE, "scenario").Null? && Get(PROBE, "check_id").Null?
  {
  }

  lemma ScenarioFields(scenario: string)
    ensures var check := SkippedScenario(scenario);
      && Get(check, "source") == Str("official") && Get(check, "name") == Str(scenario)
      && Get(check, "status") == Str("SKIP") && Get(check, "success") == Bool(true)
      && Get(check, "scenario") == Str(scenario) && Get(check, "check_id").Null?
  {
  }

  /** The status of a check with these fields is a skip. */
  lemma SkipStatus(check: Json)
    requires Get(check, "status") == Str("SKIP")
    ensures CheckStatus(check) == Some(Skip)
  {
    assert "SKIP"[0] != "PASS"[0] && "SKIP"[0] != "FAIL"[0];
  }

  lemma ProbeNotes(mode: string, transport: string)
    ensures Notes(mode, transport, PROBE, Identity(mode, transport, "supplemental", "", StableName("probe")), Skip)
  {
    ProbeFields();
    SkipStatus(PROBE);
  }

  lemma ScenarioNotes(mode: string, transport: string, scenario: string)
    requires scenario != ""
    ensures Notes(mode, transport, SkippedScenario(scenario),
                  Identity(mode, transport, "official", scenario, StableName(scenario)), Skip)
  {
    ScenarioFields(scenario);
    SkipStatus(SkippedScenario(scenario));
  }

  /** The skipped checks are well-formed, note nothing but skips, and name exactly the scenarios. */
  lemma SkipsNote(mode: string, transport: string, scenarios: seq<string>, id: Identity, st: Status)
    requires "" !in scenarios
    ensures ProperChecks(mode, transport, SkippedChecks(scenarios))
    ensures NotedIn(mode, transport, SkippedChecks(scenarios), id, st) ==>
      st.Skip? && (id.source == "supplemental" || id.scenario in scenarios)
  {
    var checks := SkippedChecks(scenarios);
    ProbeNotes(mode, transport);
    forall i | 0 <= i < |checks|
      ensures WellFormed(mode, transport, checks[i])
      ensures Notes(mode, transport, checks[i], id, st) ==>
        st.Skip? && (id.source == "supplemental" || id.scenario in scenarios)
    {
      if i > 0 {
        assert scenarios[i - 1] in scenarios;
        ScenarioNotes(mode, transport, scenarios[i - 1]);
      }
    }
  }

  lemma ScenarioNoted(mode: string, scenarios: seq<string>, scenario: string) returns (id: Identity)
    requires "" !in scenarios && scenario in scenarios
    ensures NotedIn(mode, HTTP, SkippedChecks(scenarios), id, Skip) && Shows(id, mode) && id.scenario == scenario
  {
    var i :| 0 <= i < |scenarios| && scenarios[i] == scenario;
    ScenarioNotes(mode, HTTP, scenario);
    id := Identity(mode, HTTP, "official", scenario, StableName(scenario));
    assert Notes(mode, HTTP, SkippedChecks(scenarios)[i + 1], id, Skip);
  }

  // ----- the report is complete -----

  lemma SkippedGets(catalog: Catalog)
    ensures var report := SkippedReport(catalog);
      && Get(report, "schemaVersion") == Num(SCHEMA) && Get(report, "modernFeatureEnablement") == Bool(true)
      && Get(report, "versionCheck") == Object(map["success" := Bool(true)])
      && Get(report, "automaticAuthRequired") == Bool(true)
      && Get(report, "officialConformance") == CompactOfficial(AllSelected(catalog))
      && Get(report, "cases") == List(SkippedCases(KEYS, catalog))
  {
  }

  lemma SkippedFull(catalog: Catalog)
    ensures IsFull(SkippedReport(catalog))
  {
    assert "baselineKind"[0] != "versionCheck"[0];
    assert "baselineKind" !in SkippedReport(catalog).fields;
  }

  lemma SkippedFields(catalog: Catalog)
    ensures var report := SkippedReport(catalog);
      && IsFull(report) && Cases(report) == SkippedCases(KEYS, catalog) && Get(report, "cases").List?
      && Header(report) && Get(report, "automaticAuthRequired") == Bool(true)
      && Get(report, "officialConformance") == CompactOfficial(AllSelected(catalog))
  {
    SkippedFull(catalog);
    SkippedGets(catalog);
    CompactPinned(AllSelected(catalog));
  }

  lemma SkippedRecorded(catalog: Catalog, id: Identity, st: Status)
    requires Named(catalog)
    ensures Recorded(SkippedReport(catalog), id, st) <==>
      && id.mode in MODES && id.transport in TRANSPORTS
      && NotedIn(id.mode, id.transport, SkippedChecks(catalog(id.mode)), id, st)
    ensures Recorded(SkippedReport(catalog), id, st) ==>
      st.Skip? && (id.source == "supplemental" || id.scenario in catalog(id.mode))
  {
    SkippedFields(catalog);
    if id.mode in MODES && id.transport in TRANSPORTS {
      var t :| 0 <= t < |TRANSPORTS| && TRANSPORTS[t] == id.transport;
      CaseSkips(catalog, id.mode, t);
      SkipsNote(id.mode, id.transport, catalog(id.mode), id, st);
    }
  }

  lemma ModesDiffer()
    ensures MODES[0] != MODES[1] && MODES[0] != MODES[2] && MODES[1] != MODES[2] && STDIO != HTTP
  {
    assert MODES[0][5] != MODES[1][5] && MODES[0][3] != MODES[2][3] && MODES[1][3] != MODES[2][3];
    assert |STDIO| != |HTTP|;
  }

  lemma SkippedProper(catalog: Catalog)
    ensures ProperCases(SkippedCases(KEYS, catalog))
  {
    ModesDiffer();
    var cases := SkippedCases(KEYS, catalog);
    forall i | 0 <= i < |cases|
      ensures Get(cases[i], "mode") == Str(KEYS[i].0) && Get(cases[i], "transport") == Str(KEYS[i].1)
    {
      assert cases[i] == SkippedCase(KEYS[i], catalog);
    }
  }

  lemma SkippedScenarios(catalog: Catalog, mode: string)
    requires Named(catalog) && mode in MODES
    ensures AllScenarios(SkippedReport(catalog), mode, catalog)
  {
    var report := SkippedReport(catalog);
    forall scenario
      ensures Observed(report, mode, scenario) <==> scenario in catalog(mode)
    {
      if scenario in catalog(mode) {
        var id := ScenarioNoted(mode, catalog(mode), scenario);
        assert TRANSPORTS[1] == HTTP;
        SkippedRecorded(catalog, id, Skip);
        assert Recorded(report, id, Skip);
      }
      forall id, st | Recorded(report, id, st) && Shows(id, mode) && id.scenario == scenario
        ensures scenario in catalog(mode)
      {
        SkippedRecorded(catalog, id, st);
        assert "supplemental"[0] != "official"[0] && "supplemental"[0] != "harness"[0];
      }
    }
  }

  lemma SkippedMode(catalog: Catalog, mode: string)
    requires Named(catalog) && mode in MODES
    ensures ModeComplete(SkippedReport(catalog), mode, catalog)
  {
    SkippedFields(catalog);
    assert Get(AllSelected(catalog), mode) == List(Strings(catalog(mode)));
    SkippedScenarios(catalog, mode);
    forall t | 0 <= t < |TRANSPORTS|
      ensures CaseComplete(Cases(SkippedReport(catalog)), mode, TRANSPORTS[t])
    {
      CaseSkips(catalog, mode, t);
      SkipsNote(mode, TRANSPORTS[t], catalog(mode), Identity("", "", "", "", ""), Skip);
    }
  }

  /** Whatever scenarios are required, a report in which every check was skipped passes against itself, and
      fails against its own compact baseline. */
  lemma SkipsAreLost(compact: Json, catalog: Catalog)
    requires Named(catalog) && IsCompact(compact, SkippedReport(catalog))
    ensures var report := SkippedReport(catalog);
      && Compactable(report, catalog) && Passes(report, report, catalog)
      && !Passes(report, compact, catalog)
  {
    var report := SkippedReport(catalog);
    SkippedFields(catalog);
    SkippedProper(catalog);
    forall m | 0 <= m < |MODES|
      ensures ModeComplete(report, MODES[m], catalog)
    {
      SkippedMode(catalog, MODES[m]);
    }
    forall id, st
      ensures Recorded(report, id, st) ==> st.Skip?
    {
      SkippedRecorded(catalog, id, st);
    }
    Reflexive(report, catalog);
    SamePassing(compact, report, report, catalog);
    assert !RanUnder(report, MODES[0], TRANSPORTS[0]);
    assert !ModeRan(report, MODES[0], catalog);
  }
}
