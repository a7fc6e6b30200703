/** The regression gate: reading the required checks out of a conformance report, in its full or its
    compact form, and judging a candidate report against a baseline. */
module Gate {
  import opened Wrappers
  import opened Json
  import opened Ordering

  const SHIPPING := "2025-06-18"
  const MODES := ["2025-06-18", "2025-11-25", "2026-07-28"]
  const STDIO := "stdio"
  const HTTP := "official-http"
  const TRANSPORTS := [STDIO, HTTP]
  const SCHEMA := 4
  const KIND := "mcp-conformance-regression-baseline-v1"
  const REPOSITORY := "modelcontextprotocol/conformance"
  const GIT_REF := "49103de6ed70804e940637bf3e9e29e4a3f54e64"

  /** The scenarios that a mode must run, in order. */
  type Catalog = string -> seq<string>

  datatype Status = Pass | Fail | Skip

  datatype Identity = Identity(mode: string, transport: string, source: string, scenario: string, checkId: string)

  function Row(id: Identity): seq<string> {
    [id.mode, id.transport, id.source, id.scenario, id.checkId]
  }

  predicate Sorted(ids: seq<Identity>) { Ascending(ids, Row) }

  // ----- one check -----

  predicate IsSource(j: Json) {
    j.Str? && (j.s == "official" || j.s == "harness" || j.s == "supplemental")
  }

  predicate IsDecimal(s: string) {
    s != [] && forall i :: 0 <= i < |s| ==> '0' <= s[i] <= '9'
  }

  /** The position of the last hash sign, or -1. */
  function LastHash(s: string): (n: int)
    ensures -1 <= n < |s|
    ensures n >= 0 ==> s[n] == '#'
    ensures forall i :: n < i < |s| ==> s[i] != '#'
  {
    if s == [] then -1
    else if s[|s| - 1] == '#' then |s| - 1
    else LastHash(s[..|s| - 1])
  }

  /** A name without the number that the runner gives to a repeated observation. */
  function StableName(name: string): (r: string)
    ensures name != "" ==> r != ""
  {
    var n := LastHash(name);
    if n > 0 && IsDecimal(name[n + 1..]) then name[..n] else name
  }

  predicate NullOrNonEmpty(j: Json) { j.Null? || (j.Str? && j.s != "") }

  function CheckIdentity(mode: string, transport: string, check: Json): Option<Identity> {
    var source, scenario, name, checkId :=
      Get(check, "source"), Get(check, "scenario"), Get(check, "name"), Get(check, "check_id");
    if IsSource(source) && name.Str? && name.s != "" && NullOrNonEmpty(scenario) && NullOrNonEmpty(checkId) then
      Some(Identity(mode, transport, source.s, if scenario.Str? then scenario.s else "",
                    if checkId.Str? then checkId.s else StableName(name.s)))
    else None
  }

  function CheckStatus(check: Json): Option<Status> {
    var status := Get(check, "status");
    if status == Str("PASS") then Some(Pass)
    else if status == Str("FAIL") then Some(Fail)
    else if status == Str("SKIP") then Some(Skip)
    else None
  }

  predicate WellFormed(mode: string, transport: string, check: Json) {
    && check.Object? && CheckIdentity(mode, transport, check).Some? && CheckStatus(check).Some?
    && Get(check, "success") == Bool(CheckStatus(check) != Some(Fail))
  }

  // ----- what a report holds -----

  predicate Header(report: Json) {
    && Get(report, "schemaVersion") == Num(SCHEMA)
    && Get(Get(report, "versionCheck"), "success") == Bool(true)
    && Get(report, "modernFeatureEnablement") == Bool(true)
    && Pinned(Get(report, "officialConformance"))
  }

  predicate Pinned(official: Json) {
    && Get(official, "repository") == Str(REPOSITORY) && Get(official, "gitRef") == Str(GIT_REF)
    && Get(official, "authenticationIncluded") == Bool(true)
    && Get(official, "scenarios").Object?
  }

  predicate Catalogued(report: Json, mode: string, catalog: Catalog) {
    Get(Get(Get(report, "officialConformance"), "scenarios"), mode) == List(Strings(catalog(mode)))
  }

  predicate IsCase(j: Json, mode: string, transport: string) {
    j.Object? && Get(j, "mode") == Str(mode) && Get(j, "transport") == Str(transport)
  }

  function FirstCase(cases: seq<Json>, mode: string, transport: string): Option<Json> {
    if cases == [] then None
    else
      var earlier := FirstCase(cases[..|cases| - 1], mode, transport);
      var last := cases[|cases| - 1];
      if earlier.Some? then earlier else if IsCase(last, mode, transport) then Some(last) else None
  }

  function Cases(report: Json): seq<Json> {
    var cases := Get(report, "cases");
    if cases.List? then cases.items else []
  }

  function CaseChecks(cases: seq<Json>, mode: string, transport: string): seq<Json> {
    var found := FirstCase(cases, mode, transport);
    if found.Some? && Get(found.value, "checks").List? then Get(found.value, "checks").items else []
  }

  predicate Notes(mode: string, transport: string, check: Json, id: Identity, st: Status) {
    && WellFormed(mode, transport, check)
    && CheckIdentity(mode, transport, check) == Some(id) && CheckStatus(check) == Some(st)
  }

  predicate NotedIn(mode: string, transport: string, checks: seq<Json>, id: Identity, st: Status) {
    exists i :: 0 <= i < |checks| && Notes(mode, transport, checks[i], id, st)
  }

  function RecordIdentity(record: Json): Option<Identity> {
    var mode, transport, source := Get(record, "mode"), Get(record, "transport"), Get(record, "source");
    var scenario, checkId := Get(record, "scenario"), Get(record, "check_id");
    if && mode.Str? && mode.s in MODES && transport.Str? && transport.s in TRANSPORTS
       && IsSource(source) && scenario.Str? && checkId.Str? && checkId.s != ""
    then Some(Identity(mode.s, transport.s, source.s, scenario.s, checkId.s))
    else None
  }

  predicate Listed(records: seq<Json>, id: Identity) {
    exists i :: 0 <= i < |records| && RecordIdentity(records[i]) == Some(id)
  }

  function Bucket(report: Json, st: Status): Json {
    Get(Get(report, "checks"), if st.Pass? then "passing" else "failing")
  }

  predicate IsFull(report: Json) { Get(report, "baselineKind").Null? }

  /** A report says that a check was seen with a status. */
  predicate Recorded(report: Json, id: Identity, st: Status) {
    if IsFull(report) then
      id.mode in MODES && id.transport in TRANSPORTS
      && NotedIn(id.mode, id.transport, CaseChecks(Cases(report), id.mode, id.transport), id, st)
    else
      && Get(report, "baselineKind") == Str(KIND) && !st.Skip?
      && Bucket(report, st).List? && Listed(Bucket(report, st).items, id)
  }

  // ----- when a report is complete -----

  /** An observation that shows which scenario ran. */
  predicate Shows(id: Identity, mode: string) {
    id.mode == mode && id.transport == HTTP && (id.source == "official" || id.source == "harness")
  }

  ghost predicate Observed(report: Json, mode: string, scenario: string) {
    exists id, st :: Recorded(report, id, st) && Shows(id, mode) && id.scenario == scenario
  }

  ghost predicate AllScenarios(report: Json, mode: string, catalog: Catalog) {
    forall scenario :: Observed(report, mode, scenario) <==> scenario in catalog(mode)
  }

  predicate RequiredMode(j: Json) { Get(j, "mode").Str? && Get(j, "mode").s in MODES }

  predicate SameCase(j: Json, k: Json) {
    Get(j, "mode") == Get(k, "mode") && Get(j, "transport") == Get(k, "transport")
  }

  predicate ProperCases(cases: seq<Json>) {
    && (forall i ::
        0 <= i < |cases| ==> cases[i].Object? && (RequiredMode(cases[i]) ==> Get(cases[i], "transport").Str?))
    && (forall i, j :: 0 <= i < j < |cases| && RequiredMode(cases[i]) && RequiredMode(cases[j]) ==>
          !SameCase(cases[i], cases[j]))
  }

  predicate ProperChecks(mode: string, transport: string, checks: seq<Json>) {
    checks != [] && forall i :: 0 <= i < |checks| ==> WellFormed(mode, transport, checks[i])
  }

  predicate CaseComplete(cases: seq<Json>, mode: string, transport: string) {
    ProperChecks(mode, transport, CaseChecks(cases, mode, transport))
  }

  ghost predicate ModeComplete(report: Json, mode: string, catalog: Catalog) {
    && Catalogued(report, mode, catalog) && AllScenarios(report, mode, catalog)
    && forall t :: 0 <= t < |TRANSPORTS| ==> CaseComplete(Cases(report), mode, TRANSPORTS[t])
  }

  ghost predicate Covers(report: Json, mode: string, transport: string) {
    exists id, st :: Recorded(report, id, st) && id.mode == mode && id.transport == transport
  }

  ghost predicate ModeListed(report: Json, mode: string, catalog: Catalog) {
    && Catalogued(report, mode, catalog) && AllScenarios(report, mode, catalog)
    && forall t :: 0 <= t < |TRANSPORTS| ==> Covers(report, mode, TRANSPORTS[t])
  }

  predicate ProperBucket(records: seq<Json>) {
    && (forall i :: 0 <= i < |records| ==> RecordIdentity(records[i]).Some?)
    && (forall i, j :: 0 <= i < j < |records| ==> RecordIdentity(records[i]) != RecordIdentity(records[j]))
  }

  predicate BothTransports(j: Json) {
    j == List([Str(STDIO), Str(HTTP)]) || j == List([Str(HTTP), Str(STDIO)])
  }

  ghost predicate Complete(report: Json, catalog: Catalog) {
    && Header(report)
    && if IsFull(report) then
         && Get(report, "cases").List? && ProperCases(Cases(report))
         && forall m :: 0 <= m < |MODES| ==> ModeComplete(report, MODES[m], catalog)
       else
         && Get(report, "baselineKind") == Str(KIND)
         && Get(report, "requiredModes") == List(Strings(MODES)) && BothTransports(Get(report, "transports"))
         && Bucket(report, Pass).List? && ProperBucket(Bucket(report, Pass).items)
         && Bucket(report, Fail).List? && ProperBucket(Bucket(report, Fail).items)
         && forall m :: 0 <= m < |MODES| ==> ModeListed(report, MODES[m], catalog)
  }

  // ----- the verdict -----

  predicate NewFailure(report: Json, baseline: Json, id: Identity) {
    Recorded(report, id, Fail) && !Recorded(baseline, id, Fail)
  }

  predicate KnownFailure(report: Json, baseline: Json, id: Identity) {
    Recorded(report, id, Fail) && Recorded(baseline, id, Fail)
  }

  /** Whether a check that passed or failed in the baseline is lost, given how the candidate has it. */
  predicate IsLost(passed: bool, failed: bool, passes: bool, fails: bool) {
    (passed && !passes) || (failed && !fails && !passes)
  }

  /** A check the baseline has and the candidate lost. */
  predicate Missing(report: Json, baseline: Json, id: Identity) {
    IsLost(Recorded(baseline, id, Pass), Recorded(baseline, id, Fail),
           Recorded(report, id, Pass), Recorded(report, id, Fail))
  }

  predicate Fixed(report: Json, baseline: Json, id: Identity) {
    Recorded(baseline, id, Fail) && !Recorded(report, id, Fail) && Recorded(report, id, Pass)
  }

  ghost predicate ShippingClean(report: Json) {
    forall id: Identity :: id.mode == SHIPPING ==> !Recorded(report, id, Fail)
  }

  predicate SamePolicy(report: Json, baseline: Json) {
    && Get(report, "automaticAuthRequired").Bool?
    && Get(report, "automaticAuthRequired") == Get(baseline, "automaticAuthRequired")
  }

  ghost predicate Passes(report: Json, baseline: Json, catalog: Catalog) {
    && Complete(baseline, catalog) && Complete(report, catalog) && SamePolicy(report, baseline)
    && ShippingClean(report) && ShippingClean(baseline)
    && forall id :: !NewFailure(report, baseline, id) && !Missing(report, baseline, id)
  }

  datatype Verdict = Verdict(
    success: bool,
    newFailures: seq<Identity>,
    missing: seq<Identity>,
    known: seq<Identity>,
    fixed: seq<Identity>)

  /** The verdict on a candidate: the four lists hold exactly what they are for, in order. */
  ghost predicate Judges(v: Verdict, report: Json, baseline: Json, catalog: Catalog) {
    && (v.success <==> Passes(report, baseline, catalog))
    && Sorted(v.newFailures) && (forall id :: id in v.newFailures <==> NewFailure(report, baseline, id))
    && Sorted(v.missing) && (forall id :: id in v.missing <==> Missing(report, baseline, id))
    && Sorted(v.known) && (forall id :: id in v.known <==> KnownFailure(report, baseline, id))
    && Sorted(v.fixed) && (forall id :: id in v.fixed <==> Fixed(report, baseline, id))
  }

  // ----- the compact baseline -----

  function IdentityJson(id: Identity): Json {
    Object(map["mode" := Str(id.mode), "transport" := Str(id.transport), "source" := Str(id.source),
               "scenario" := Str(id.scenario), "check_id" := Str(id.checkId)])
  }

  function Records(ids: seq<Identity>): (r: seq<Json>)
    ensures |r| == |ids| && forall i :: 0 <= i < |ids| ==> r[i] == IdentityJson(ids[i])
  {
    seq(|ids|, i requires 0 <= i < |ids| => IdentityJson(ids[i]))
  }

  function CompactOfficial(scenarios: Json): Json {
    Object(map["repository" := Str(REPOSITORY), "gitRef" := Str(GIT_REF), "authenticationIncluded" := Bool(true),
               "scenarios" := Object(map mode | mode in MODES :: Get(scenarios, mode))])
  }

  function CompactReport(report: Json, passing: seq<Identity>, failing: seq<Identity>): Json {
    Object(map[
      "baselineKind" := Str(KIND),
      "schemaVersion" := Num(SCHEMA),
      "requiredModes" := List(Strings(MODES)),
      "transports" := List([Str(STDIO), Str(HTTP)]),
      "versionCheck" := Object(map["success" := Bool(true)]),
      "modernFeatureEnablement" := Bool(true),
      "automaticAuthRequired" := Get(report, "automaticAuthRequired"),
      "officialConformance" := CompactOfficial(Get(Get(report, "officialConformance"), "scenarios")),
      "checks" := Object(map["passing" := List(Records(passing)), "failing" := List(Records(failing))])])
  }

  ghost predicate Lists(ids: seq<Identity>, report: Json, st: Status) {
    Sorted(ids) && forall id :: id in ids <==> Recorded(report, id, st)
  }

  ghost predicate IsCompact(compact: Json, report: Json) {
    exists passing, failing ::
      Lists(passing, report, Pass) && Lists(failing, report, Fail) && compact == CompactReport(report, passing, failing)
  }

  /** The reports from which a baseline can be made. */
  ghost predicate Compactable(report: Json, catalog: Catalog) {
    Complete(report, catalog) && Get(report, "automaticAuthRequired").Bool? && ShippingClean(report)
  }
}
