/** The regression gate as it runs: loops that fill an error list, a dictionary of checks and the lists
    of the verdict. */
module GateRun {
  import opened Wrappers
  import opened Errors
  import opened Json
  import opened Ordering
  import opened Gate

  type Checks = map<Identity, set<Status>>

  predicate Has(checks: Checks, id: Identity, st: Status) {
    id in checks && st in checks[id]
  }

  /** A dictionary holds an entry only for checks with a status. */
  predicate NoEmpty(checks: Checks) {
    forall id :: id in checks ==> checks[id] != {}
  }

  function Note(checks: Checks, id: Identity, st: Status): (r: Checks)
    requires NoEmpty(checks)
    ensures NoEmpty(r) && forall i, s :: Has(r, i, s) <==> Has(checks, i, s) || (i == id && s == st)
  {
    checks[id := (if id in checks then checks[id] else {}) + {st}]
  }

  datatype Issue =
    | BadHeader(which: string)
    | BadFormat(which: string)
    | BadCase(which: string)
    | MissingCase(which: string, mode: string, transport: string)
    | BadCheck(which: string, mode: string, transport: string)
    | BadRecord(which: string)
    | DuplicateRecord(which: string)
    | WrongCatalog(which: string, mode: string)
    | WrongScenarios(which: string, mode: string)
    | DifferentPolicy
    | ShippingFailure(which: string, checkId: string)

  method ReadHeader(report: Json, which: string, errors: ErrorList<Issue>)
    modifies errors
    ensures Grown(old(errors.items), errors.items, Header(report))
  {
    if Get(report, "schemaVersion") != Num(SCHEMA) {
      errors.Append(BadHeader(which));
    }
    if Get(Get(report, "versionCheck"), "success") != Bool(true) {
      errors.Append(BadHeader(which));
    }
    if Get(report, "modernFeatureEnablement") != Bool(true) {
      errors.Append(BadHeader(which));
    }
    ReadOfficial(Get(report, "officialConformance"), which, errors);
  }

  method ReadOfficial(official: Json, which: string, errors: ErrorList<Issue>)
    modifies errors
    ensures Grown(old(errors.items), errors.items, Pinned(official))
  {
    if !official.Object? {
      errors.Append(BadHeader(which));
      return;
    }
    if Get(official, "repository") != Str(REPOSITORY) {
      errors.Append(BadHeader(which));
    }
    if Get(official, "gitRef") != Str(GIT_REF) {
      errors.Append(BadHeader(which));
    }
    if Get(official, "authenticationIncluded") != Bool(true) {
      errors.Append(BadHeader(which));
    }
    if !Get(official, "scenarios").Object? {
      errors.Append(BadHeader(which));
    }
  }

  // ----- the full format -----

  method ReadCases(caseList: seq<Json>, which: string, errors: ErrorList<Issue>)
    returns (cases: map<(string, string), Json>)
    modifies errors
    ensures Grown(old(errors.items), errors.items, ProperCases(caseList))
    ensures forall mode, transport :: mode in MODES ==>
      FirstCase(caseList, mode, transport)
      == if (mode, transport) in cases then Some(cases[(mode, transport)]) else None
  {
    cases := map[];
    for n := 0 to |caseList|
      invariant Grown(old(errors.items), errors.items, ProperCases(caseList[..n]))
      invariant forall mode, transport :: mode in MODES ==>
        FirstCase(caseList[..n], mode, transport)
        == if (mode, transport) in cases then Some(cases[(mode, transport)]) else None
      invariant forall key :: key in cases ==> key.0 in MODES
    {
      var c := caseList[n];
      assert caseList[..n + 1] == caseList[..n] + [c];
      OneMoreCase(caseList[..n], c);
      if !c.Object? {
        errors.Append(BadCase(which));
        continue;
      }
      var mode, transport := Get(c, "mode"), Get(c, "transport");
      if !(mode.Str? && mode.s in MODES) {
        continue;
      }
      if !transport.Str? {
        errors.Append(BadCase(which));
        continue;
      }
      if (mode.s, transport.s) in cases {
        errors.Append(BadCase(which));
        continue;
      }
      cases := cases[(mode.s, transport.s) := c];
    }
    assert caseList[..|caseList|] == caseList;
  }

  lemma {:induction false} FirstCaseExists(cases: seq<Json>, mode: string, transport: string)
    ensures FirstCase(cases, mode, transport).Some? <==>
      exists i :: 0 <= i < |cases| && IsCase(cases[i], mode, transport)
  {
    if cases != [] {
      FirstCaseExists(cases[..|cases| - 1], mode, transport);
    }
  }

  predicate FitsAfter(cases: seq<Json>, c: Json) {
    && c.Object?
    && (RequiredMode(c) ==>
          && Get(c, "transport").Str?
          && FirstCase(cases, Get(c, "mode").s, Get(c, "transport").s).None?)
  }

  /** What one more case does to the first cases and to their being proper. */
  lemma OneMoreCase(cases: seq<Json>, c: Json)
    ensures forall mode, transport ::
      var earlier := FirstCase(cases, mode, transport);
      FirstCase(cases + [c], mode, transport)
      == if earlier.Some? then earlier else if IsCase(c, mode, transport) then Some(c) else None
    ensures ProperCases(cases + [c]) <==> ProperCases(cases) && FitsAfter(cases, c)
  {
    assert (cases + [c])[..|cases|] == cases;
    var longer := cases + [c];
    assert forall i :: 0 <= i < |cases| ==> longer[i] == cases[i];
    assert longer[|cases|] == c;
    if ProperCases(cases) && c.Object? && RequiredMode(c) && Get(c, "transport").Str? {
      FirstCaseExists(cases, Get(c, "mode").s, Get(c, "transport").s);
      ClashIsCase(cases, c);
    }
  }

  lemma ClashIsCase(cases: seq<Json>, c: Json)
    requires ProperCases(cases) && c.Object? && RequiredMode(c) && Get(c, "transport").Str?
    ensures forall i :: 0 <= i < |cases| ==>
      (IsCase(cases[i], Get(c, "mode").s, Get(c, "transport").s) <==> RequiredMode(cases[i]) && SameCase(cases[i], c))
  {
  }

  /** The dictionary `after` is `before` with the checks of a list added. */
  ghost predicate Adds(after: Checks, before: Checks, mode: string, transport: string, checks: seq<Json>) {
    NoEmpty(after)
    && forall id, st :: Has(after, id, st) <==> Has(before, id, st) || NotedIn(mode, transport, checks, id, st)
  }

  ghost predicate ShownIn(mode: string, checks: seq<Json>, scenario: string) {
    exists id, st :: NotedIn(mode, HTTP, checks, id, st) && Shows(id, mode) && id.scenario == scenario
  }

  ghost predicate Sees(observed: set<string>, mode: string, checks: seq<Json>) {
    forall scenario :: scenario in observed <==> ShownIn(mode, checks, scenario)
  }

  lemma OneMoreCheck(mode: string, transport: string, checks: seq<Json>, check: Json, id: Identity, st: Status)
    ensures NotedIn(mode, transport, checks + [check], id, st)
       <==> NotedIn(mode, transport, checks, id, st) || Notes(mode, transport, check, id, st)
  {
    var longer := checks + [check];
    assert longer[|checks|] == check;
    if NotedIn(mode, transport, checks, id, st) {
      var i :| 0 <= i < |checks| && Notes(mode, transport, checks[i], id, st);
      assert longer[i] == checks[i];
    }
  }

  lemma AddsOneMore(after: Checks, before: Checks, mode: string, transport: string, checks: seq<Json>, check: Json)
    requires Adds(after, before, mode, transport, checks)
    ensures !WellFormed(mode, transport, check) ==> Adds(after, before, mode, transport, checks + [check])
    ensures WellFormed(mode, transport, check) ==>
      var id, st := CheckIdentity(mode, transport, check).value, CheckStatus(check).value;
      Adds(Note(after, id, st), before, mode, transport, checks + [check])
  {
    forall id, st
      ensures NotedIn(mode, transport, checks + [check], id, st)
         <==> NotedIn(mode, transport, checks, id, st) || Notes(mode, transport, check, id, st)
    {
      OneMoreCheck(mode, transport, checks, check, id, st);
    }
  }

  lemma SeesOneMore(observed: set<string>, mode: string, checks: seq<Json>, check: Json)
    requires Sees(observed, mode, checks)
    ensures !WellFormed(mode, HTTP, check) ==> Sees(observed, mode, checks + [check])
    ensures WellFormed(mode, HTTP, check) ==>
      var id := CheckIdentity(mode, HTTP, check).value;
      Sees(if Shows(id, mode) then observed + {id.scenario} else observed, mode, checks + [check])
  {
    forall id, st
      ensures NotedIn(mode, HTTP, checks + [check], id, st)
         <==> NotedIn(mode, HTTP, checks, id, st) || Notes(mode, HTTP, check, id, st)
    {
      OneMoreCheck(mode, HTTP, checks, check, id, st);
    }
    if WellFormed(mode, HTTP, check) {
      assert Notes(mode, HTTP, check, CheckIdentity(mode, HTTP, check).value, CheckStatus(check).value);
    }
    forall scenario
      ensures ShownIn(mode, checks + [check], scenario) <==>
        || ShownIn(mode, checks, scenario)
        || exists id, st :: Notes(mode, HTTP, check, id, st) && Shows(id, mode) && id.scenario == scenario
    {
    }
  }

  predicate AllWellFormed(mode: string, transport: string, checks: seq<Json>) {
    forall i :: 0 <= i < |checks| ==> WellFormed(mode, transport, checks[i])
  }

  method ReadChecks(mode: string, transport: string, rawChecks: seq<Json>, which: string, errors: ErrorList<Issue>,
                    before: Checks) returns (checks: Checks, observed: set<string>)
    requires NoEmpty(before)
    modifies errors
    ensures Grown(old(errors.items), errors.items, AllWellFormed(mode, transport, rawChecks))
    ensures Adds(checks, before, mode, transport, rawChecks)
    ensures transport == HTTP ==> Sees(observed, mode, rawChecks)
  {
    checks, observed := before, {};
    for n := 0 to |rawChecks|
      invariant Grown(old(errors.items), errors.items, AllWellFormed(mode, transport, rawChecks[..n]))
      invariant Adds(checks, before, mode, transport, rawChecks[..n])
      invariant transport == HTTP ==> Sees(observed, mode, rawChecks[..n])
    {
      var check := rawChecks[n];
      assert rawChecks[..n + 1] == rawChecks[..n] + [check];
      AddsOneMore(checks, before, mode, transport, rawChecks[..n], check);
      if transport == HTTP {
        SeesOneMore(observed, mode, rawChecks[..n], check);
      }
      if !WellFormed(mode, transport, check) {
        errors.Append(BadCheck(which, mode, transport));
        continue;
      }
      var id, st := CheckIdentity(mode, transport, check).value, CheckStatus(check).value;
      checks := Note(checks, id, st);
      if transport == HTTP && (id.source == "official" || id.source == "harness") {
        observed := observed + {id.scenario};
      }
    }
    assert rawChecks[..|rawChecks|] == rawChecks;
  }

  /** The dictionary `after` is `before` with what the report records for the given modes added. */
  ghost predicate AddsModes(after: Checks, before: Checks, report: Json, modes: seq<string>) {
    NoEmpty(after)
    && forall id, st :: Has(after, id, st) <==> Has(before, id, st) || (id.mode in modes && Recorded(report, id, st))
  }

  ghost predicate AddsTransports(after: Checks, before: Checks, report: Json, mode: string, transports: seq<string>) {
    NoEmpty(after)
    && forall id, st :: Has(after, id, st) <==>
         Has(before, id, st) || (id.mode == mode && id.transport in transports && Recorded(report, id, st))
  }

  lemma AddsTransport(a: Checks, b: Checks, c: Checks, report: Json, mode: string, transports: seq<string>,
                      transport: string)
    requires IsFull(report) && mode in MODES && transport in TRANSPORTS
    requires AddsTransports(b, a, report, mode, transports)
    requires Adds(c, b, mode, transport, CaseChecks(Cases(report), mode, transport))
    ensures AddsTransports(c, a, report, mode, transports + [transport])
  {
    forall id, st
      ensures NotedIn(mode, transport, CaseChecks(Cases(report), mode, transport), id, st)
         <==> id.mode == mode && id.transport == transport && Recorded(report, id, st)
    {
    }
  }

  lemma SeesAll(observed: set<string>, report: Json, mode: string, catalog: Catalog)
    requires IsFull(report) && mode in MODES && Sees(observed, mode, CaseChecks(Cases(report), mode, HTTP))
    ensures (forall scenario :: scenario in observed <==> scenario in catalog(mode))
            <==> AllScenarios(report, mode, catalog)
  {
    forall scenario
      ensures Observed(report, mode, scenario) <==> scenario in observed
    {
      var checks := CaseChecks(Cases(report), mode, HTTP);
      if ShownIn(mode, checks, scenario) {
        var id, st :| NotedIn(mode, HTTP, checks, id, st) && Shows(id, mode) && id.scenario == scenario;
        assert Recorded(report, id, st);
      }
    }
  }

  method CompareScenarios(observed: set<string>, expectedScenarios: seq<string>, mode: string, which: string,
                          errors: ErrorList<Issue>)
    modifies errors
    ensures Grown(old(errors.items), errors.items,
                  forall scenario :: scenario in observed <==> scenario in expectedScenarios)
  {
    var expected := set scenario | scenario in expectedScenarios;
    var missing, unexpected := expected - observed, observed - expected;
    if missing != {} {
      errors.Append(WrongScenarios(which, mode));
    }
    if unexpected != {} {
      errors.Append(WrongScenarios(which, mode));
    }
    NothingLeft(expected, observed);
    NothingLeft(observed, expected);
  }

  lemma NothingLeft(a: set<string>, b: set<string>)
    ensures a - b == {} <==> forall x :: x in a ==> x in b
  {
    if x :| x in a && x !in b {
      assert x in a - b;
    } else {
      assert forall x :: x !in a - b;
    }
  }

  method ReadTransport(report: Json, cases: map<(string, string), Json>, mode: string, transport: string,
                       catalog: Catalog,
                       which: string, errors: ErrorList<Issue>, before: Checks) returns (checks: Checks)
    requires IsFull(report) && mode in MODES && transport in TRANSPORTS && NoEmpty(before)
    requires FirstCase(Cases(report), mode, transport)
          == if (mode, transport) in cases then Some(cases[(mode, transport)]) else None
    modifies errors
    ensures Grown(old(errors.items), errors.items,
                  && CaseComplete(Cases(report), mode, transport)
                  && (transport == HTTP ==> AllScenarios(report, mode, catalog)))
    ensures Adds(checks, before, mode, transport, CaseChecks(Cases(report), mode, transport))
  {
    if (mode, transport) !in cases {
      errors.Append(MissingCase(which, mode, transport));
      return before;
    }
    var rawChecks := Get(cases[(mode, transport)], "checks");
    if !rawChecks.List? || rawChecks.items == [] {
      errors.Append(MissingCase(which, mode, transport));
      return before;
    }
    var observed;
    checks, observed := ReadChecks(mode, transport, rawChecks.items, which, errors, before);
    if transport == HTTP {
      SeesAll(observed, report, mode, catalog);
      CompareScenarios(observed, catalog(mode), mode, which, errors);
    }
  }

  method ReadMode(report: Json, cases: map<(string, string), Json>, mode: string, catalog: Catalog,
                  which: string, errors: ErrorList<Issue>, before: Checks) returns (checks: Checks)
    requires IsFull(report) && mode in MODES && NoEmpty(before)
    requires forall transport ::
      FirstCase(Cases(report), mode, transport)
      == if (mode, transport) in cases then Some(cases[(mode, transport)]) else None
    modifies errors
    ensures Grown(old(errors.items), errors.items, ModeComplete(report, mode, catalog))
    ensures AddsTransports(checks, before, report, mode, TRANSPORTS)
  {
    if !Catalogued(report, mode, catalog) {
      errors.Append(WrongCatalog(which, mode));
    }
    checks := before;
    for t := 0 to |TRANSPORTS|
      invariant Grown(old(errors.items), errors.items,
                      Catalogued(report, mode, catalog) && CompleteUpTo(report, mode, catalog, t))
      invariant AddsTransports(checks, before, report, mode, TRANSPORTS[..t])
    {
      ghost var earlier := checks;
      checks := ReadTransport(report, cases, mode, TRANSPORTS[t], catalog, which, errors, checks);
      AddsTransport(before, earlier, checks, report, mode, TRANSPORTS[..t], TRANSPORTS[t]);
      assert TRANSPORTS[..t + 1] == TRANSPORTS[..t] + [TRANSPORTS[t]];
    }
    assert TRANSPORTS[..|TRANSPORTS|] == TRANSPORTS;
    CompleteAll(report, mode, catalog);
  }

  lemma CompleteAll(report: Json, mode: string, catalog: Catalog)
    ensures ModeComplete(report, mode, catalog)
       <==> Catalogued(report, mode, catalog) && CompleteUpTo(report, mode, catalog, |TRANSPORTS|)
  {
    assert TRANSPORTS[1] == HTTP;
  }

  ghost predicate CompleteUpTo(report: Json, mode: string, catalog: Catalog, t: nat)
    requires t <= |TRANSPORTS|
  {
    forall k :: 0 <= k < t ==>
      && CaseComplete(Cases(report), mode, TRANSPORTS[k])
      && (TRANSPORTS[k] == HTTP ==> AllScenarios(report, mode, catalog))
  }

  lemma AddsMode(a: Checks, b: Checks, c: Checks, report: Json, modes: seq<string>, mode: string)
    requires IsFull(report)
    requires AddsModes(b, a, report, modes) && AddsTransports(c, b, report, mode, TRANSPORTS)
    ensures AddsModes(c, a, report, modes + [mode])
  {
  }

  ghost predicate ModesComplete(report: Json, catalog: Catalog, m: nat)
    requires m <= |MODES|
  {
    forall k :: 0 <= k < m ==> ModeComplete(report, MODES[k], catalog)
  }

  method ReadFull(report: Json, catalog: Catalog, which: string, errors: ErrorList<Issue>) returns (checks: Checks)
    requires IsFull(report)
    modifies errors
    ensures Grown(old(errors.items), errors.items,
                  Get(report, "cases").List? && ProperCases(Cases(report)) && ModesComplete(report, catalog, |MODES|))
    ensures AddsModes(checks, map[], report, MODES)
  {
    if !Get(report, "cases").List? {
      errors.Append(BadCase(which));
    }
    var cases := ReadCases(Cases(report), which, errors);
    checks := map[];
    ghost var proper := Get(report, "cases").List? && ProperCases(Cases(report));
    for m := 0 to |MODES|
      invariant Grown(old(errors.items), errors.items, proper && ModesComplete(report, catalog, m))
      invariant AddsModes(checks, map[], report, MODES[..m])
    {
      ghost var earlier := checks;
      checks := ReadMode(report, cases, MODES[m], catalog, which, errors, checks);
      AddsMode(map[], earlier, checks, report, MODES[..m], MODES[m]);
      assert MODES[..m + 1] == MODES[..m] + [MODES[m]];
    }
    assert MODES[..|MODES|] == MODES;
  }

  // ----- the compact format -----

  lemma OneMoreRecord(records: seq<Json>, record: Json)
    ensures forall id :: Listed(records + [record], id) <==> Listed(records, id) || RecordIdentity(record) == Some(id)
    ensures ProperBucket(records + [record]) <==>
      ProperBucket(records) && RecordIdentity(record).Some? && !Listed(records, RecordIdentity(record).value)
  {
    var longer := records + [record];
    assert longer[|records|] == record;
    assert forall i :: 0 <= i < |records| ==> longer[i] == records[i];
    forall id
      ensures Listed(longer, id) <==> Listed(records, id) || RecordIdentity(record) == Some(id)
    {
      if Listed(records, id) {
        var i :| 0 <= i < |records| && RecordIdentity(records[i]) == Some(id);
        assert longer[i] == records[i];
      }
    }
  }

  ghost predicate AddsBucket(after: Checks, before: Checks, records: seq<Json>, st: Status) {
    NoEmpty(after) && forall id, s :: Has(after, id, s) <==> Has(before, id, s) || (s == st && Listed(records, id))
  }

  method ReadBucket(records: seq<Json>, st: Status, which: string, errors: ErrorList<Issue>,
                    before: Checks) returns (checks: Checks)
    requires NoEmpty(before)
    modifies errors
    ensures Grown(old(errors.items), errors.items, ProperBucket(records))
    ensures AddsBucket(checks, before, records, st)
  {
    checks := before;
    var seen: set<Identity> := {};
    for n := 0 to |records|
      invariant Grown(old(errors.items), errors.items, ProperBucket(records[..n]))
      invariant AddsBucket(checks, before, records[..n], st)
      invariant forall id :: id in seen <==> Listed(records[..n], id)
    {
      assert records[..n + 1] == records[..n] + [records[n]];
      OneMoreRecord(records[..n], records[n]);
      var id := RecordIdentity(records[n]);
      if id.None? {
        errors.Append(BadRecord(which));
        continue;
      }
      if id.value in seen {
        errors.Append(DuplicateRecord(which));
        continue;
      }
      seen := seen + {id.value};
      checks := Note(checks, id.value, st);
    }
    assert records[..|records|] == records;
  }

  /** The dictionary holds what the report records. */
  ghost predicate Reads(checks: Checks, report: Json) {
    NoEmpty(checks) && forall id, st :: Has(checks, id, st) <==> Recorded(report, id, st)
  }

  method ReadListedMode(report: Json, checks: Checks, mode: string, catalog: Catalog, which: string,
                        errors: ErrorList<Issue>)
    requires Reads(checks, report)
    modifies errors
    ensures Grown(old(errors.items), errors.items, ModeListed(report, mode, catalog))
  {
    if !Catalogued(report, mode, catalog) {
      errors.Append(WrongCatalog(which, mode));
    }
    for t := 0 to |TRANSPORTS|
      invariant Grown(old(errors.items), errors.items, Catalogued(report, mode, catalog) && CoversUpTo(report, mode, t))
    {
      ReadsCovers(checks, report, mode, TRANSPORTS[t]);
      if !exists id :: id in checks && id.mode == mode && id.transport == TRANSPORTS[t] {
        errors.Append(MissingCase(which, mode, TRANSPORTS[t]));
      }
    }
    var observed := set id | id in checks && Shows(id, mode) :: id.scenario;
    ReadsObserved(observed, checks, report, mode, catalog);
    CompareScenarios(observed, catalog(mode), mode, which, errors);
  }

  ghost predicate CoversUpTo(report: Json, mode: string, t: nat)
    requires t <= |TRANSPORTS|
  {
    forall k :: 0 <= k < t ==> Covers(report, mode, TRANSPORTS[k])
  }

  lemma ReadsCovers(checks: Checks, report: Json, mode: string, transport: string)
    requires Reads(checks, report)
    ensures (exists id :: id in checks && id.mode == mode && id.transport == transport)
            <==> Covers(report, mode, transport)
  {
    if id :| id in checks && id.mode == mode && id.transport == transport {
      var st :| st in checks[id];
      assert Has(checks, id, st);
    }
    if Covers(report, mode, transport) {
      var id, st :| Recorded(report, id, st) && id.mode == mode && id.transport == transport;
      assert Has(checks, id, st);
    }
  }

  lemma ReadsObserved(observed: set<string>, checks: Checks, report: Json, mode: string, catalog: Catalog)
    requires Reads(checks, report)
    requires observed == set id | id in checks && Shows(id, mode) :: id.scenario
    ensures (forall scenario :: scenario in observed <==> scenario in catalog(mode))
            <==> AllScenarios(report, mode, catalog)
  {
    forall scenario
      ensures Observed(report, mode, scenario) <==> scenario in observed
    {
      if scenario in observed {
        var id :| id in checks && Shows(id, mode) && id.scenario == scenario;
        var st :| st in checks[id];
        assert Has(checks, id, st);
      }
      if Observed(report, mode, scenario) {
        var id, st :| Recorded(report, id, st) && Shows(id, mode) && id.scenario == scenario;
        assert Has(checks, id, st);
      }
    }
  }

  lemma TransportSet(items: seq<Json>)
    requires |items| == 2
    ensures (set x | x in items) == {Str(STDIO), Str(HTTP)} <==> BothTransports(List(items))
  {
    var xs := set x | x in items;
    assert items == [items[0], items[1]] && xs == {items[0], items[1]};
    assert Str(STDIO) != Str(HTTP);
    if xs == {Str(STDIO), Str(HTTP)} {
      assert Str(STDIO) in xs && Str(HTTP) in xs && items[0] in xs && items[1] in xs;
    }
  }

  ghost predicate ModesListed(report: Json, catalog: Catalog, m: nat)
    requires m <= |MODES|
  {
    forall k :: 0 <= k < m ==> ModeListed(report, MODES[k], catalog)
  }

  method ReadFormat(report: Json, which: string, errors: ErrorList<Issue>)
    modifies errors
    ensures Grown(old(errors.items), errors.items,
                  Get(report, "requiredModes") == List(Strings(MODES)) && BothTransports(Get(report, "transports")))
  {
    if Get(report, "requiredModes") != List(Strings(MODES)) {
      errors.Append(BadFormat(which));
    }
    var transports := Get(report, "transports");
    if transports.List? && |transports.items| == 2 {
      TransportSet(transports.items);
    }
    if !transports.List? || |transports.items| != 2 || (set x | x in transports.items) != {Str(STDIO), Str(HTTP)} {
      errors.Append(BadFormat(which));
    }
  }

  method ReadBuckets(report: Json, which: string, errors: ErrorList<Issue>) returns (checks: Checks)
    requires Get(report, "baselineKind") == Str(KIND)
    modifies errors
    ensures Grown(old(errors.items), errors.items,
      && Bucket(report, Pass).List? && ProperBucket(Bucket(report, Pass).items)
      && Bucket(report, Fail).List? && ProperBucket(Bucket(report, Fail).items))
    ensures Reads(checks, report)
  {
    checks := map[];
    var passing, failing := Bucket(report, Pass), Bucket(report, Fail);
    if passing.List? {
      checks := ReadBucket(passing.items, Pass, which, errors, checks);
    } else {
      errors.Append(BadFormat(which));
    }
    if failing.List? {
      checks := ReadBucket(failing.items, Fail, which, errors, checks);
    } else {
      errors.Append(BadFormat(which));
    }
  }

  method ReadCompact(report: Json, catalog: Catalog, which: string, errors: ErrorList<Issue>) returns (checks: Checks)
    requires !IsFull(report)
    modifies errors
    ensures Grown(old(errors.items), errors.items,
      && Get(report, "baselineKind") == Str(KIND)
      && Get(report, "requiredModes") == List(Strings(MODES)) && BothTransports(Get(report, "transports"))
      && Bucket(report, Pass).List? && ProperBucket(Bucket(report, Pass).items)
      && Bucket(report, Fail).List? && ProperBucket(Bucket(report, Fail).items)
      && ModesListed(report, catalog, |MODES|))
    ensures Reads(checks, report)
  {
    if Get(report, "baselineKind") != Str(KIND) {
      errors.Append(BadFormat(which));
      return map[];
    }
    ReadFormat(report, which, errors);
    if !Get(report, "checks").Object? {
      errors.Append(BadFormat(which));
      return map[];
    }
    checks := ReadBuckets(report, which, errors);
    ghost var fine := |errors.items| == |old(errors.items)|;
    for m := 0 to |MODES|
      invariant Grown(old(errors.items), errors.items, fine && ModesListed(report, catalog, m))
    {
      ReadListedMode(report, checks, MODES[m], catalog, which, errors);
    }
  }

  /** Collect the required checks of a report in either format. */
  method RequiredChecks(report: Json, catalog: Catalog, which: string,
                        errors: ErrorList<Issue>) returns (checks: Checks)
    modifies errors
    ensures Grown(old(errors.items), errors.items, Complete(report, catalog))
    ensures Reads(checks, report)
  {
    ReadHeader(report, which, errors);
    if IsFull(report) {
      checks := ReadFull(report, catalog, which, errors);
    } else {
      checks := ReadCompact(report, catalog, which, errors);
    }
  }

  // ----- the verdict -----

  lemma RowInjective(a: Identity, b: Identity)
    requires Row(a) == Row(b)
    ensures a == b
  {
    assert Row(a)[0] == Row(b)[0] && Row(a)[1] == Row(b)[1] && Row(a)[2] == Row(b)[2];
    assert Row(a)[3] == Row(b)[3] && Row(a)[4] == Row(b)[4];
  }

  method SortedKeys(checks: Checks) returns (ids: seq<Identity>)
    ensures Sorted(ids) && forall id :: id in ids <==> id in checks
  {
    forall a, b | Row(a) == Row(b)
      ensures a == b
    {
      RowInjective(a, b);
    }
    ids := Sort(checks.Keys, Row);
  }

  ghost predicate CleanUpTo(checks: Checks, ids: seq<Identity>, n: nat)
    requires n <= |ids|
  {
    forall k :: 0 <= k < n ==> !(ids[k].mode == SHIPPING && Has(checks, ids[k], Fail))
  }

  lemma CleanStep(checks: Checks, ids: seq<Identity>, n: nat)
    requires n < |ids|
    ensures CleanUpTo(checks, ids, n + 1) <==>
      CleanUpTo(checks, ids, n) && !(ids[n].mode == SHIPPING && Has(checks, ids[n], Fail))
  {
  }

  ghost predicate Clean(checks: Checks) {
    forall id: Identity :: id.mode == SHIPPING ==> !Has(checks, id, Fail)
  }

  lemma CleanAll(checks: Checks, ids: seq<Identity>)
    requires forall id :: id in ids <==> id in checks
    ensures CleanUpTo(checks, ids, |ids|) <==> Clean(checks)
  {
    forall id | CleanUpTo(checks, ids, |ids|) && id in ids && id.mode == SHIPPING
      ensures !Has(checks, id, Fail)
    {
      var k :| 0 <= k < |ids| && ids[k] == id;
    }
  }

  method JudgeCandidate(candidate: Checks, baseline: Checks, errors: ErrorList<Issue>)
    returns (newFailures: seq<Identity>, known: seq<Identity>)
    modifies errors
    ensures Grown(old(errors.items), errors.items, Clean(candidate))
    ensures Sorted(newFailures) && Sorted(known)
    ensures forall id :: id in newFailures <==> Has(candidate, id, Fail) && !Has(baseline, id, Fail)
    ensures forall id :: id in known <==> Has(candidate, id, Fail) && Has(baseline, id, Fail)
  {
    var ids := SortedKeys(candidate);
    newFailures, known := [], [];
    ghost var isNew := iset id | Has(candidate, id, Fail) && !Has(baseline, id, Fail);
    ghost var isKnown := iset id | Has(candidate, id, Fail) && Has(baseline, id, Fail);
    PicksNone(ids, isNew, Row);
    PicksNone(ids, isKnown, Row);
    for n := 0 to |ids|
      invariant Grown(old(errors.items), errors.items, CleanUpTo(candidate, ids, n))
      invariant newFailures in Picks(ids, n, isNew, Row) && known in Picks(ids, n, isKnown, Row)
    {
      var id := ids[n];
      CleanStep(candidate, ids, n);
      PicksStep(newFailures, ids, n, isNew, Row);
      PicksStep(known, ids, n, isKnown, Row);
      if Fail !in candidate[id] {
        continue;
      }
      if id.mode == SHIPPING {
        errors.Append(ShippingFailure("candidate", id.checkId));
      }
      if Has(baseline, id, Fail) {
        known := known + [id];
      } else {
        newFailures := newFailures + [id];
      }
    }
    PicksAll(newFailures, ids, isNew, Row);
    PicksAll(known, ids, isKnown, Row);
    CleanAll(candidate, ids);
  }

  predicate Lost(candidate: Checks, baseline: Checks, id: Identity) {
    IsLost(Has(baseline, id, Pass), Has(baseline, id, Fail), Has(candidate, id, Pass), Has(candidate, id, Fail))
  }

  predicate Mended(candidate: Checks, baseline: Checks, id: Identity) {
    Has(baseline, id, Fail) && !Has(candidate, id, Fail) && Has(candidate, id, Pass)
  }

  ghost function Losses(candidate: Checks, baseline: Checks): iset<Identity> {
    iset id | Lost(candidate, baseline, id)
  }

  ghost function Repairs(candidate: Checks, baseline: Checks): iset<Identity> {
    iset id | Mended(candidate, baseline, id)
  }

  /** File the next check of the baseline as missing, fixed or neither. */
  method Sift(candidate: Checks, baseline: Checks, ids: seq<Identity>, n: nat, missing: seq<Identity>,
              fixed: seq<Identity>)
    returns (m: seq<Identity>, f: seq<Identity>)
    requires n < |ids| && Sorted(ids) && ids[n] in baseline
    requires missing in Picks(ids, n, Losses(candidate, baseline), Row)
    requires fixed in Picks(ids, n, Repairs(candidate, baseline), Row)
    ensures m in Picks(ids, n + 1, Losses(candidate, baseline), Row)
    ensures f in Picks(ids, n + 1, Repairs(candidate, baseline), Row)
  {
    var id := ids[n];
    PicksStep(missing, ids, n, Losses(candidate, baseline), Row);
    PicksStep(fixed, ids, n, Repairs(candidate, baseline), Row);
    m, f := missing, fixed;
    if Pass in baseline[id] && !Has(candidate, id, Pass) {
      m := missing + [id];
    } else if Fail in baseline[id] && !Has(candidate, id, Fail) && !Has(candidate, id, Pass) {
      m := missing + [id];
    } else if Fail in baseline[id] && !Has(candidate, id, Fail) {
      f := fixed + [id];
    }
  }

  method JudgeBaseline(candidate: Checks, baseline: Checks, errors: ErrorList<Issue>)
    returns (missing: seq<Identity>, fixed: seq<Identity>)
    modifies errors
    ensures Grown(old(errors.items), errors.items, Clean(baseline))
    ensures Sorted(missing) && Sorted(fixed)
    ensures forall id :: id in missing <==> Lost(candidate, baseline, id)
    ensures forall id :: id in fixed <==> Mended(candidate, baseline, id)
  {
    var ids := SortedKeys(baseline);
    missing, fixed := [], [];
    ghost var isMissing, isFixed := Losses(candidate, baseline), Repairs(candidate, baseline);
    PicksNone(ids, isMissing, Row);
    PicksNone(ids, isFixed, Row);
    for n := 0 to |ids|
      invariant Grown(old(errors.items), errors.items, CleanUpTo(baseline, ids, n))
      invariant missing in Picks(ids, n, isMissing, Row) && fixed in Picks(ids, n, isFixed, Row)
    {
      var id := ids[n];
      CleanStep(baseline, ids, n);
      if id.mode == SHIPPING && Fail in baseline[id] {
        errors.Append(ShippingFailure("baseline", id.checkId));
      }
      missing, fixed := Sift(candidate, baseline, ids, n, missing, fixed);
    }
    PicksAll(missing, ids, isMissing, Row);
    PicksAll(fixed, ids, isFixed, Row);
    CleanAll(baseline, ids);
  }

  method ComparePolicy(report: Json, baseline: Json, errors: ErrorList<Issue>)
    modifies errors
    ensures Grown(old(errors.items), errors.items, SamePolicy(report, baseline))
  {
    var baselineAuth, candidateAuth := Get(baseline, "automaticAuthRequired"), Get(report, "automaticAuthRequired");
    if !baselineAuth.Bool? || !candidateAuth.Bool? {
      errors.Append(DifferentPolicy);
    } else if baselineAuth != candidateAuth {
      errors.Append(DifferentPolicy);
    }
  }

  /** Judge a candidate report against a baseline report. */
  method EvaluateGate(report: Json, baseline: Json, catalog: Catalog) returns (v: Verdict, issues: seq<Issue>)
    ensures Judges(v, report, baseline, catalog)
    ensures v.success <==> issues == [] && v.newFailures == [] && v.missing == []
  {
    var errors := new ErrorList<Issue>();
    var baselineChecks := RequiredChecks(baseline, catalog, "baseline", errors);
    var candidateChecks := RequiredChecks(report, catalog, "candidate", errors);
    ComparePolicy(report, baseline, errors);
    var newFailures, known := JudgeCandidate(candidateChecks, baselineChecks, errors);
    var missing, fixed := JudgeBaseline(candidateChecks, baselineChecks, errors);
    issues := errors.items;
    v := Verdict(issues == [] && newFailures == [] && missing == [], newFailures, missing, known, fixed);
    ReadsClean(candidateChecks, report);
    ReadsClean(baselineChecks, baseline);
    assert issues == [] <==>
      Complete(baseline, catalog) && Complete(report, catalog) && SamePolicy(report, baseline)
      && ShippingClean(report) && ShippingClean(baseline);
    Assembled(v, candidateChecks, baselineChecks, report, baseline);
  }

  lemma ReadsClean(checks: Checks, report: Json)
    requires Reads(checks, report)
    ensures Clean(checks) <==> ShippingClean(report)
  {
  }

  /** What the dictionaries say about a check, said of the reports. */
  lemma SaidOfReports(candidate: Checks, baselineChecks: Checks, report: Json, baseline: Json, id: Identity)
    requires Reads(candidate, report) && Reads(baselineChecks, baseline)
    ensures NewFailure(report, baseline, id) <==> Has(candidate, id, Fail) && !Has(baselineChecks, id, Fail)
    ensures KnownFailure(report, baseline, id) <==> Has(candidate, id, Fail) && Has(baselineChecks, id, Fail)
    ensures Missing(report, baseline, id) == Lost(candidate, baselineChecks, id)
    ensures Fixed(report, baseline, id) <==> Mended(candidate, baselineChecks, id)
  {
  }

  lemma Assembled(v: Verdict, candidate: Checks, baselineChecks: Checks, report: Json, baseline: Json)
    requires Reads(candidate, report) && Reads(baselineChecks, baseline)
    requires forall id :: id in v.newFailures <==> Has(candidate, id, Fail) && !Has(baselineChecks, id, Fail)
    requires forall id :: id in v.known <==> Has(candidate, id, Fail) && Has(baselineChecks, id, Fail)
    requires forall id :: id in v.missing <==> Lost(candidate, baselineChecks, id)
    requires forall id :: id in v.fixed <==> Mended(candidate, baselineChecks, id)
    ensures forall id :: id in v.newFailures <==> NewFailure(report, baseline, id)
    ensures forall id :: id in v.known <==> KnownFailure(report, baseline, id)
    ensures forall id :: id in v.missing <==> Missing(report, baseline, id)
    ensures forall id :: id in v.fixed <==> Fixed(report, baseline, id)
    ensures v.newFailures == [] && v.missing == [] <==>
      forall id :: !NewFailure(report, baseline, id) && !Missing(report, baseline, id)
  {
    forall id
      ensures id in v.newFailures <==> NewFailure(report, baseline, id)
      ensures id in v.known <==> KnownFailure(report, baseline, id)
      ensures id in v.missing <==> Missing(report, baseline, id)
      ensures id in v.fixed <==> Fixed(report, baseline, id)
    {
      SaidOfReports(candidate, baselineChecks, report, baseline, id);
    }
    assert v.newFailures != [] ==> v.newFailures[0] in v.newFailures;
    assert v.missing != [] ==> v.missing[0] in v.missing;
  }

  // ----- making a compact baseline -----

  method SortedWith(checks: Checks, st: Status) returns (ids: seq<Identity>)
    ensures Sorted(ids) && forall id :: id in ids <==> Has(checks, id, st)
  {
    var keys := SortedKeys(checks);
    ids := [];
    ghost var wanted := iset id | Has(checks, id, st);
    PicksNone(keys, wanted, Row);
    for n := 0 to |keys|
      invariant ids in Picks(keys, n, wanted, Row)
    {
      PicksStep(ids, keys, n, wanted, Row);
      if st in checks[keys[n]] {
        ids := ids + [keys[n]];
      }
    }
    PicksAll(ids, keys, wanted, Row);
  }

  /** The compact form of a report, or the reasons against it. */
  method CompactBaseline(report: Json, catalog: Catalog) returns (r: Result<Json, seq<Issue>>)
    ensures r.Ok? <==> Compactable(report, catalog)
    ensures r.Ok? ==> IsCompact(r.value, report)
    ensures r.Err? ==> r.error != []
  {
    var errors := new ErrorList<Issue>();
    var checks := RequiredChecks(report, catalog, "baseline", errors);
    if !Get(report, "automaticAuthRequired").Bool? {
      errors.Append(DifferentPolicy);
    }
    ReadsClean(checks, report);
    var shipping := exists id :: id in checks && id.mode == SHIPPING && Fail in checks[id];
    assert shipping <==> !Clean(checks);
    if shipping {
      errors.Append(ShippingFailure("baseline", ""));
    }
    if errors.items != [] {
      return Err(errors.items);
    }
    var passing := SortedWith(checks, Pass);
    var failing := SortedWith(checks, Fail);
    assert Lists(passing, report, Pass) && Lists(failing, report, Fail);
    return Ok(CompactReport(report, passing, failing));
  }
}
