/** The review gate: the probes of the review suite, read out of a full or a compact report. */
module Review {
  import opened Wrappers
  import opened Json
  import opened Ordering

  const REVIEWER := "workx-mcp-regression-suite"
  const SCHEMA := 1
  const KIND := "mcp-review-regression-baseline-v1"
  const MODES := ["2025-06-18", "2025-11-25", "2026-07-28"]
  const PREFIX := "review/"

  /** A mode and a transport. The cases that every report must have are a parameter. */
  type Case = (string, string)

  datatype Probe = Probe(mode: string, transport: string, checkId: string)

  function Row(id: Probe): seq<string> { [id.mode, id.transport, id.checkId] }

  function CaseRow(c: Case): seq<string> { [c.0, c.1] }

  predicate Sorted(ids: seq<Probe>) { Ascending(ids, Row) }

  datatype Seen = Seen(id: Probe, success: bool)

  type Checks = map<Probe, bool>

  // ----- a dictionary keeps the first entry of a key -----

  function Put(m: Checks, s: Seen): Checks {
    if s.id in m then m else m[s.id := s.success]
  }

  function PutAll(m: Checks, seen: seq<Seen>): Checks {
    if seen == [] then m else Put(PutAll(m, seen[..|seen| - 1]), seen[|seen| - 1])
  }

  predicate SeenOnce(seen: seq<Seen>) {
    forall i, j :: 0 <= i < j < |seen| ==> seen[i].id != seen[j].id
  }

  // ----- the full format -----

  function CaseOf(j: Json, required: set<Case>): Option<Case> {
    var mode, transport := Get(j, "mode"), Get(j, "transport");
    if j.Object? && mode.Str? && transport.Str? && (mode.s, transport.s) in required then Some((mode.s, transport.s))
    else None
  }

  function CaseSet(cases: seq<Json>, required: set<Case>): set<Case> {
    set i | 0 <= i < |cases| && CaseOf(cases[i], required).Some? :: CaseOf(cases[i], required).value
  }

  function CheckOf(c: Case, check: Json): Option<Seen> {
    var name, success := Get(check, "name"), Get(check, "success");
    if check.Object? && name.Str? && PREFIX <= name.s && success.Bool? then
      Some(Seen(Probe(c.0, c.1, name.s), success.b))
    else None
  }

  function SeenIn(c: Case, checks: seq<Json>): seq<Seen> {
    if checks == [] then []
    else
      var last := CheckOf(c, checks[|checks| - 1]);
      SeenIn(c, checks[..|checks| - 1]) + if last.Some? then [last.value] else []
  }

  function ChecksIn(j: Json): seq<Json> {
    if Get(j, "checks").List? then Get(j, "checks").items else []
  }

  /** What the cases show; a second case for the same mode and transport is not looked at. */
  function SeenInCases(cases: seq<Json>, required: set<Case>): seq<Seen> {
    if cases == [] then []
    else
      var earlier, last := cases[..|cases| - 1], cases[|cases| - 1];
      var c := CaseOf(last, required);
      SeenInCases(earlier, required)
      + if c.Some? && c.value !in CaseSet(earlier, required) then SeenIn(c.value, ChecksIn(last)) else []
  }

  predicate AllSucceed(c: Case, checks: seq<Json>) {
    forall i :: 0 <= i < |checks| ==> CheckOf(c, checks[i]).Some? ==> CheckOf(c, checks[i]).value.success
  }

  predicate ProperCase(j: Json, required: set<Case>) {
    && CaseOf(j, required).Some? && ChecksIn(j) != []
    && (forall i :: 0 <= i < |ChecksIn(j)| ==> CheckOf(CaseOf(j, required).value, ChecksIn(j)[i]).Some?)
    && Get(j, "success") == Bool(AllSucceed(CaseOf(j, required).value, ChecksIn(j)))
  }

  predicate ProperCases(cases: seq<Json>, required: set<Case>) {
    && (forall i :: 0 <= i < |cases| ==> ProperCase(cases[i], required))
    && (forall i, j :: 0 <= i < j < |cases| ==> CaseOf(cases[i], required) != CaseOf(cases[j], required))
  }

  // ----- the compact format -----

  function PlainCaseOf(j: Json): Option<Case> {
    var mode, transport := Get(j, "mode"), Get(j, "transport");
    if j.Object? && mode.Str? && transport.Str? then Some((mode.s, transport.s)) else None
  }

  function PlainCaseSet(cases: seq<Json>): set<Case> {
    set i | 0 <= i < |cases| && PlainCaseOf(cases[i]).Some? :: PlainCaseOf(cases[i]).value
  }

  predicate ProperPlainCases(cases: seq<Json>) {
    && (forall i :: 0 <= i < |cases| ==> PlainCaseOf(cases[i]).Some?)
    && (forall i, j :: 0 <= i < j < |cases| ==> PlainCaseOf(cases[i]) != PlainCaseOf(cases[j]))
  }

  function RecordOf(record: Json, success: bool, required: set<Case>): Option<Seen> {
    var c, checkId := CaseOf(record, required), Get(record, "check_id");
    if c.Some? && checkId.Str? && PREFIX <= checkId.s then Some(Seen(Probe(c.value.0, c.value.1, checkId.s), success))
    else None
  }

  function SeenInBucket(records: seq<Json>, success: bool, required: set<Case>): seq<Seen> {
    if records == [] then []
    else
      var last := RecordOf(records[|records| - 1], success, required);
      SeenInBucket(records[..|records| - 1], success, required) + if last.Some? then [last.value] else []
  }

  predicate ProperBucket(j: Json, success: bool, required: set<Case>) {
    j.List? && forall i :: 0 <= i < |j.items| ==> RecordOf(j.items[i], success, required).Some?
  }

  function Items(j: Json): seq<Json> { if j.List? then j.items else [] }

  // ----- what a report holds -----

  predicate IsFull(report: Json) { Get(report, "baselineKind").Null? }

  function Bucket(report: Json, success: bool): Json {
    Get(Get(report, "checks"), if success then "passing" else "failing")
  }

  function Observations(report: Json, required: set<Case>): seq<Seen> {
    if IsFull(report) then SeenInCases(Items(Get(report, "cases")), required)
    else
      SeenInBucket(Items(Bucket(report, true)), true, required)
      + SeenInBucket(Items(Bucket(report, false)), false, required)
  }

  function ObservedCases(report: Json, required: set<Case>): set<Case> {
    if IsFull(report) then CaseSet(Items(Get(report, "cases")), required)
    else PlainCaseSet(Items(Get(report, "requiredCases")))
  }

  /** The probes of a report and whether they succeeded. */
  function Probes(report: Json, required: set<Case>): Checks {
    PutAll(map[], Observations(report, required))
  }

  // ----- when a report is consistent -----

  function Passing(checks: Checks): set<Probe> { set id | id in checks && checks[id] }

  predicate CasePassed(checks: Checks, c: Case) {
    && (exists id :: id in checks && (id.mode, id.transport) == c)
    && forall id :: id in checks && (id.mode, id.transport) == c ==> checks[id]
  }

  function PassedCases(checks: Checks, cases: set<Case>): set<Case> { set c | c in cases && CasePassed(checks, c) }

  predicate SummaryAgrees(summary: Json, checks: Checks, cases: set<Case>) {
    && Get(summary, "passed") == Num(|Passing(checks)|)
    && Get(summary, "failed") == Num(|checks| - |Passing(checks)|)
    && Get(summary, "total") == Num(|checks|)
    && Get(summary, "casesPassed") == Num(|PassedCases(checks, cases)|)
    && Get(summary, "casesTotal") == Num(|cases|)
  }

  predicate Header(report: Json) {
    && Get(report, "schemaVersion") == Num(SCHEMA) && Get(report, "reviewer") == Str(REVIEWER)
    && Get(report, if IsFull(report) then "modes" else "requiredModes") == List(Strings(MODES))
  }

  predicate ProperBody(report: Json, required: set<Case>) {
    if IsFull(report) then
      Get(report, "cases").List? && ProperCases(Items(Get(report, "cases")), required)
    else
      && Get(report, "baselineKind") == Str(KIND)
      && Get(report, "requiredCases").List? && ProperPlainCases(Items(Get(report, "requiredCases")))
      && ProperBucket(Bucket(report, true), true, required) && ProperBucket(Bucket(report, false), false, required)
  }

  /** Whether the counts and flags of a report agree with its probes. */
  predicate TotalsAgree(report: Json, checks: Checks, cases: set<Case>) {
    && SummaryAgrees(Get(report, "summary"), checks, cases)
    && (IsFull(report) ==> Get(report, "success") == Bool(cases != {} && |checks| == |Passing(checks)|))
  }

  predicate Consistent(report: Json, required: set<Case>) {
    && Header(report) && ProperBody(report, required)
    && SeenOnce(Observations(report, required)) && ObservedCases(report, required) == required
    && TotalsAgree(report, Probes(report, required), ObservedCases(report, required))
  }

  // ----- the verdict -----

  predicate Failed(checks: Checks, id: Probe) { id in checks && !checks[id] }

  predicate NewFailure(report: Checks, baseline: Checks, id: Probe) { Failed(report, id) && !Failed(baseline, id) }

  predicate KnownFailure(report: Checks, baseline: Checks, id: Probe) { Failed(report, id) && Failed(baseline, id) }

  predicate Missing(report: Checks, baseline: Checks, id: Probe) { id in baseline && id !in report }

  predicate Fixed(report: Checks, baseline: Checks, id: Probe) { Failed(baseline, id) && id in report && report[id] }

  ghost predicate Passes(report: Json, baseline: Json, required: set<Case>) {
    && Consistent(baseline, required) && Consistent(report, required)
    && forall id :: !NewFailure(Probes(report, required), Probes(baseline, required), id)
                 && !Missing(Probes(report, required), Probes(baseline, required), id)
  }

  datatype Verdict = Verdict(
    success: bool, known: seq<Probe>, newFailures: seq<Probe>, missing: seq<Probe>, fixed: seq<Probe>)

  /** The four lists hold exactly what they are for, in order. */
  ghost predicate ListsRight(v: Verdict, report: Checks, baseline: Checks) {
    && Sorted(v.known) && (forall id :: id in v.known <==> KnownFailure(report, baseline, id))
    && Sorted(v.newFailures) && (forall id :: id in v.newFailures <==> NewFailure(report, baseline, id))
    && Sorted(v.missing) && (forall id :: id in v.missing <==> Missing(report, baseline, id))
    && Sorted(v.fixed) && (forall id :: id in v.fixed <==> Fixed(report, baseline, id))
  }

  ghost predicate Judges(v: Verdict, report: Json, baseline: Json, required: set<Case>) {
    && (v.success <==> Passes(report, baseline, required))
    && ListsRight(v, Probes(report, required), Probes(baseline, required))
  }

  // ----- the compact baseline -----

  function CaseJson(c: Case): Json { Object(map["mode" := Str(c.0), "transport" := Str(c.1)]) }

  function CaseJsons(cases: seq<Case>): (r: seq<Json>)
    ensures |r| == |cases| && forall i :: 0 <= i < |cases| ==> r[i] == CaseJson(cases[i])
  {
    seq(|cases|, i requires 0 <= i < |cases| => CaseJson(cases[i]))
  }

  function ProbeJson(id: Probe): Json {
    Object(map["mode" := Str(id.mode), "transport" := Str(id.transport), "check_id" := Str(id.checkId)])
  }

  function ProbeJsons(ids: seq<Probe>): (r: seq<Json>)
    ensures |r| == |ids| && forall i :: 0 <= i < |ids| ==> r[i] == ProbeJson(ids[i])
  {
    seq(|ids|, i requires 0 <= i < |ids| => ProbeJson(ids[i]))
  }

  function CompactSummary(summary: Json): Json {
    Object(map["passed" := Get(summary, "passed"), "failed" := Get(summary, "failed"), "total" := Get(summary, "total"),
               "casesPassed" := Get(summary, "casesPassed"), "casesTotal" := Get(summary, "casesTotal")])
  }

  function CompactReport(summary: Json, cases: seq<Case>, passing: seq<Probe>, failing: seq<Probe>): Json {
    Object(map[
      "baselineKind" := Str(KIND),
      "schemaVersion" := Num(SCHEMA),
      "reviewer" := Str(REVIEWER),
      "requiredModes" := List(Strings(MODES)),
      "requiredCases" := List(CaseJsons(cases)),
      "summary" := CompactSummary(summary),
      "checks" := Object(map["passing" := List(ProbeJsons(passing)), "failing" := List(ProbeJsons(failing))])])
  }

  predicate ListsCases(cases: seq<Case>, required: set<Case>) {
    && Ascending(cases, CaseRow) && (forall c :: c in required ==> c in cases)
    && (forall c :: c in cases ==> c in required)
  }

  /** The probes with one outcome, in order. */
  ghost predicate Lists(ids: seq<Probe>, checks: Checks, success: bool) {
    Sorted(ids) && forall id :: id in ids <==> id in checks && checks[id] == success
  }

  ghost predicate IsCompact(compact: Json, report: Json, required: set<Case>) {
    exists cases, passing, failing ::
      && ListsCases(cases, required) && Lists(passing, Probes(report, required), true)
      && Lists(failing, Probes(report, required), false)
      && compact == CompactReport(Get(report, "summary"), cases, passing, failing)
  }
}
