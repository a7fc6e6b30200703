/** The review gate as it runs. */
module ReviewRun {
  import opened Wrappers
  import opened Errors
  import opened Json
  import opened Ordering
  import opened Review
  import opened ReviewTheorems

  datatype Issue =
    | BadHeader(which: string)
    | BadFormat(which: string)
    | BadCase(which: string)
    | DuplicateCase(which: string)
    | BadCheck(which: string)
    | DuplicateCheck(which: string)
    | NoChecks(which: string, at: Case)
    | WrongCaseSuccess(which: string, at: Case)
    | MissingCase(which: string)
    | UnexpectedCase(which: string)
    | WrongTotals(which: string)
    | WrongSuccess(which: string)

  // ----- adding to a dictionary -----

  /** None of the observations is in the dictionary yet, and no two of them are of the same probe. */
  predicate Fresh(before: Checks, seen: seq<Seen>) {
    SeenOnce(seen) && forall i :: 0 <= i < |seen| ==> seen[i].id !in before
  }

  lemma PutSnoc(before: Checks, seen: seq<Seen>, s: Seen)
    ensures PutAll(before, seen + [s]) == Put(PutAll(before, seen), s)
    ensures Fresh(before, seen + [s]) <==> Fresh(before, seen) && s.id !in PutAll(before, seen)
  {
    var longer := seen + [s];
    assert longer[..|seen|] == seen;
    assert forall i :: 0 <= i < |seen| ==> longer[i] == seen[i];
    assert longer[|seen|] == s;
    PutAllKeys(before, seen, s.id);
    if Mentions(seen, s.id) {
      var i :| 0 <= i < |seen| && seen[i].id == s.id;
      assert longer[i].id == longer[|seen|].id;
    }
  }

  lemma {:induction false} PutAppend(before: Checks, a: seq<Seen>, b: seq<Seen>)
    ensures PutAll(before, a + b) == PutAll(PutAll(before, a), b)
    ensures Fresh(before, a + b) <==> Fresh(before, a) && Fresh(PutAll(before, a), b)
  {
    if b == [] {
      assert a + b == a;
    } else {
      var n := |b| - 1;
      PutAppend(before, a, b[..n]);
      assert a + b == a + b[..n] + [b[n]] && b == b[..n] + [b[n]];
      PutSnoc(before, a + b[..n], b[n]);
      PutSnoc(PutAll(before, a), b[..n], b[n]);
    }
  }

  // ----- the compact format -----

  method ReadPlainCases(cases: seq<Json>, which: string, errors: ErrorList<Issue>) returns (observed: set<Case>)
    modifies errors
    ensures Grown(old(errors.items), errors.items, ProperPlainCases(cases))
    ensures observed == PlainCaseSet(cases)
  {
    observed := {};
    for n := 0 to |cases|
      invariant Grown(old(errors.items), errors.items, ProperPlainCases(cases[..n]))
      invariant observed == PlainCaseSet(cases[..n])
    {
      OneMorePlainCase(cases[..n], cases[n]);
      assert cases[..n + 1] == cases[..n] + [cases[n]];
      var c := PlainCaseOf(cases[n]);
      if c.None? {
        errors.Append(BadCase(which));
        continue;
      }
      if c.value in observed {
        errors.Append(DuplicateCase(which));
        continue;
      }
      observed := observed + {c.value};
    }
    assert cases[..|cases|] == cases;
  }

  lemma OneMorePlainCase(cases: seq<Json>, j: Json)
    ensures PlainCaseSet(cases + [j])
         == PlainCaseSet(cases) + if PlainCaseOf(j).Some? then {PlainCaseOf(j).value} else {}
    ensures ProperPlainCases(cases + [j]) <==>
      ProperPlainCases(cases) && PlainCaseOf(j).Some? && PlainCaseOf(j).value !in PlainCaseSet(cases)
  {
    var longer := cases + [j];
    assert forall i :: 0 <= i < |cases| ==> longer[i] == cases[i];
    assert longer[|cases|] == j;
  }

  /** The records read so far gave `checks`, without an issue if `fine`. */
  ghost predicate BucketRead(checks: Checks, fine: bool, before: Checks, records: seq<Json>, success: bool,
                             required: set<Case>) {
    && checks == PutAll(before, SeenInBucket(records, success, required))
    && (fine <==>
          ProperBucket(List(records), success, required) && Fresh(before, SeenInBucket(records, success, required)))
  }

  method ReadBucket(records: seq<Json>, success: bool, required: set<Case>, which: string, errors: ErrorList<Issue>,
                    before: Checks) returns (checks: Checks, ghost fine: bool)
    modifies errors
    ensures Grown(old(errors.items), errors.items, fine)
    ensures BucketRead(checks, fine, before, records, success, required)
  {
    checks, fine := before, true;
    for n := 0 to |records|
      invariant Grown(old(errors.items), errors.items, fine)
      invariant BucketRead(checks, fine, before, records[..n], success, required)
    {
      var record := RecordOf(records[n], success, required);
      BucketStep(checks, fine, before, records, n, success, required);
      if record.None? {
        errors.Append(BadCheck(which));
        fine := false;
        continue;
      }
      if record.value.id in checks {
        errors.Append(DuplicateCheck(which));
        fine := false;
        continue;
      }
      checks := checks[record.value.id := success];
    }
    assert records[..|records|] == records;
  }

  lemma BucketStep(checks: Checks, fine: bool, before: Checks, records: seq<Json>, n: nat, success: bool,
                   required: set<Case>)
    requires n < |records| && BucketRead(checks, fine, before, records[..n], success, required)
    ensures var record := RecordOf(records[n], success, required);
      if record.None? || record.value.id in checks then
        BucketRead(checks, false, before, records[..n + 1], success, required)
      else BucketRead(checks[record.value.id := success], fine, before, records[..n + 1], success, required)
  {
    assert records[..n + 1] == records[..n] + [records[n]];
    BucketSnoc(checks, fine, before, records[..n], records[n], success, required);
  }

  lemma BucketSnoc(checks: Checks, fine: bool, before: Checks, records: seq<Json>, j: Json, success: bool,
                   required: set<Case>)
    requires BucketRead(checks, fine, before, records, success, required)
    ensures var record := RecordOf(j, success, required);
      if record.None? || record.value.id in checks then
        BucketRead(checks, false, before, records + [j], success, required)
      else BucketRead(checks[record.value.id := success], fine, before, records + [j], success, required)
  {
    OneMoreRecord(records, j, success, required);
    OneMoreProper(records, j, success, required);
    var record := RecordOf(j, success, required);
    if record.Some? {
      PutSnoc(before, SeenInBucket(records, success, required), record.value);
    }
  }

  lemma OneMoreRecord(records: seq<Json>, j: Json, success: bool, required: set<Case>)
    ensures var seen, last := SeenInBucket(records, success, required), RecordOf(j, success, required);
      SeenInBucket(records + [j], success, required) == if last.Some? then seen + [last.value] else seen
  {
    var longer := records + [j];
    assert longer[..|records|] == records && longer[|records|] == j;
    assert SeenInBucket(records, success, required) + [] == SeenInBucket(records, success, required);
  }

  lemma OneMoreProper(records: seq<Json>, j: Json, success: bool, required: set<Case>)
    ensures ProperBucket(List(records + [j]), success, required)
       <==> ProperBucket(List(records), success, required) && RecordOf(j, success, required).Some?
  {
    var longer := records + [j];
    assert longer[|records|] == j;
    assert forall i :: 0 <= i < |records| ==> longer[i] == records[i];
  }

  // ----- the full format -----

  predicate AllChecks(c: Case, checks: seq<Json>) {
    forall i :: 0 <= i < |checks| ==> CheckOf(c, checks[i]).Some?
  }

  lemma OneMoreSeen(c: Case, checks: seq<Json>, j: Json)
    ensures var seen, last := SeenIn(c, checks), CheckOf(c, j);
      SeenIn(c, checks + [j]) == if last.Some? then seen + [last.value] else seen
  {
    assert (checks + [j])[..|checks|] == checks && (checks + [j])[|checks|] == j;
    assert SeenIn(c, checks) + [] == SeenIn(c, checks);
  }

  lemma OneMoreCheck(c: Case, checks: seq<Json>, j: Json)
    ensures AllChecks(c, checks + [j]) <==> AllChecks(c, checks) && CheckOf(c, j).Some?
    ensures AllSucceed(c, checks + [j])
            <==> AllSucceed(c, checks) && (CheckOf(c, j).Some? ==> CheckOf(c, j).value.success)
  {
    var longer := checks + [j];
    assert longer[|checks|] == j;
    assert forall i :: 0 <= i < |checks| ==> longer[i] == checks[i];
  }

  ghost predicate CaseRead(checks: Checks, caseSuccess: bool, fine: bool, before: Checks, c: Case,
                           rawChecks: seq<Json>) {
    && checks == PutAll(before, SeenIn(c, rawChecks))
    && (fine <==> AllChecks(c, rawChecks) && Fresh(before, SeenIn(c, rawChecks)))
    && (fine ==> caseSuccess == AllSucceed(c, rawChecks))
  }

  /** Read the checks of one case. A check that was seen before does not count for the case. */
  method ReadCaseChecks(c: Case, rawChecks: seq<Json>, which: string, errors: ErrorList<Issue>, before: Checks)
    returns (checks: Checks, caseSuccess: bool, ghost fine: bool)
    modifies errors
    ensures Grown(old(errors.items), errors.items, fine)
    ensures CaseRead(checks, caseSuccess, fine, before, c, rawChecks)
  {
    checks, caseSuccess, fine := before, true, true;
    for n := 0 to |rawChecks|
      invariant Grown(old(errors.items), errors.items, fine)
      invariant CaseRead(checks, caseSuccess, fine, before, c, rawChecks[..n])
    {
      var check := CheckOf(c, rawChecks[n]);
      CaseStep(checks, caseSuccess, fine, before, c, rawChecks, n);
      if check.None? {
        errors.Append(BadCheck(which));
        fine := false;
        continue;
      }
      if check.value.id in checks {
        errors.Append(DuplicateCheck(which));
        fine := false;
        continue;
      }
      checks := checks[check.value.id := check.value.success];
      caseSuccess := caseSuccess && check.value.success;
    }
    assert rawChecks[..|rawChecks|] == rawChecks;
  }

  lemma CaseStep(checks: Checks, caseSuccess: bool, fine: bool, before: Checks, c: Case, rawChecks: seq<Json>, n: nat)
    requires n < |rawChecks| && CaseRead(checks, caseSuccess, fine, before, c, rawChecks[..n])
    ensures var check := CheckOf(c, rawChecks[n]);
      if check.None? || check.value.id in checks then
        CaseRead(checks, caseSuccess, false, before, c, rawChecks[..n + 1])
      else CaseRead(checks[check.value.id := check.value.success], caseSuccess && check.value.success, fine, before, c,
                    rawChecks[..n + 1])
  {
    OneMoreSeen(c, rawChecks[..n], rawChecks[n]);
    OneMoreCheck(c, rawChecks[..n], rawChecks[n]);
    assert rawChecks[..n + 1] == rawChecks[..n] + [rawChecks[n]];
    var check := CheckOf(c, rawChecks[n]);
    if check.Some? {
      PutSnoc(before, SeenIn(c, rawChecks[..n]), check.value);
    }
  }

  lemma OneMoreCase(cases: seq<Json>, j: Json, required: set<Case>)
    ensures CaseSet(cases + [j], required)
         == CaseSet(cases, required) + if CaseOf(j, required).Some? then {CaseOf(j, required).value} else {}
    ensures var seen, c := SeenInCases(cases, required), CaseOf(j, required);
      SeenInCases(cases + [j], required)
      == if c.Some? && c.value !in CaseSet(cases, required) then seen + SeenIn(c.value, ChecksIn(j)) else seen
  {
    var longer := cases + [j];
    assert longer[..|cases|] == cases && longer[|cases|] == j;
    assert forall i :: 0 <= i < |cases| ==> longer[i] == cases[i];
    assert SeenInCases(cases, required) + [] == SeenInCases(cases, required);
  }

  lemma OneMoreProperCase(cases: seq<Json>, j: Json, required: set<Case>)
    ensures ProperCases(cases + [j], required) <==>
      ProperCases(cases, required) && ProperCase(j, required) && CaseOf(j, required).value !in CaseSet(cases, required)
  {
    var longer := cases + [j];
    assert forall i :: 0 <= i < |cases| ==> longer[i] == cases[i];
    assert longer[|cases|] == j;
  }

  ghost predicate CasesRead(checks: Checks, observed: set<Case>, fine: bool, cases: seq<Json>, required: set<Case>) {
    && checks == PutAll(map[], SeenInCases(cases, required)) && observed == CaseSet(cases, required)
    && (fine <==> ProperCases(cases, required) && Fresh(map[], SeenInCases(cases, required)))
  }

  /** Read one case that is expected and new. */
  method ReadCase(j: Json, c: Case, required: set<Case>, which: string, errors: ErrorList<Issue>, before: Checks)
    returns (checks: Checks)
    requires CaseOf(j, required) == Some(c)
    modifies errors
    ensures Grown(old(errors.items), errors.items, ProperCase(j, required) && Fresh(before, SeenIn(c, ChecksIn(j))))
    ensures checks == PutAll(before, SeenIn(c, ChecksIn(j)))
  {
    var rawChecks := Get(j, "checks");
    if !rawChecks.List? || rawChecks.items == [] {
      errors.Append(NoChecks(which, c));
      return before;
    }
    var caseSuccess;
    ghost var fine;
    checks, caseSuccess, fine := ReadCaseChecks(c, rawChecks.items, which, errors, before);
    if Get(j, "success") != Bool(caseSuccess) {
      errors.Append(WrongCaseSuccess(which, c));
    }
  }

  lemma CaseSkipped(checks: Checks, observed: set<Case>, fine: bool, front: seq<Json>, j: Json, required: set<Case>)
    requires CasesRead(checks, observed, fine, front, required)
    requires CaseOf(j, required).None? || CaseOf(j, required).value in observed
    ensures CasesRead(checks, observed, false, front + [j], required)
  {
    OneMoreCase(front, j, required);
    OneMoreProperCase(front, j, required);
  }

  lemma CaseAdded(checks: Checks, observed: set<Case>, fine: bool, front: seq<Json>, j: Json, required: set<Case>)
    requires CasesRead(checks, observed, fine, front, required)
    requires CaseOf(j, required).Some? && CaseOf(j, required).value !in observed
    ensures var c := CaseOf(j, required).value;
      var seen := SeenIn(c, ChecksIn(j));
      CasesRead(PutAll(checks, seen), observed + {c}, fine && ProperCase(j, required) && Fresh(checks, seen),
                front + [j], required)
  {
    OneMoreCase(front, j, required);
    OneMoreProperCase(front, j, required);
    PutAppend(map[], SeenInCases(front, required), SeenIn(CaseOf(j, required).value, ChecksIn(j)));
  }

  lemma CasesStep(checks: Checks, observed: set<Case>, fine: bool, cases: seq<Json>, n: nat, required: set<Case>)
    requires n < |cases| && CasesRead(checks, observed, fine, cases[..n], required)
    ensures var c := CaseOf(cases[n], required);
      if c.None? || c.value in observed then CasesRead(checks, observed, false, cases[..n + 1], required)
      else
        var seen := SeenIn(c.value, ChecksIn(cases[n]));
        CasesRead(PutAll(checks, seen), observed + {c.value},
                  fine && ProperCase(cases[n], required) && Fresh(checks, seen),
                  cases[..n + 1], required)
  {
    assert cases[..n + 1] == cases[..n] + [cases[n]];
    var c := CaseOf(cases[n], required);
    if c.None? || c.value in observed {
      CaseSkipped(checks, observed, fine, cases[..n], cases[n], required);
    } else {
      CaseAdded(checks, observed, fine, cases[..n], cases[n], required);
    }
  }

  method ReadCases(cases: seq<Json>, required: set<Case>, which: string, errors: ErrorList<Issue>)
    returns (checks: Checks, observed: set<Case>, ghost fine: bool)
    modifies errors
    ensures Grown(old(errors.items), errors.items, fine)
    ensures CasesRead(checks, observed, fine, cases, required)
  {
    checks, observed, fine := map[], {}, true;
    for n := 0 to |cases|
      invariant Grown(old(errors.items), errors.items, fine)
      invariant CasesRead(checks, observed, fine, cases[..n], required)
    {
      CasesStep(checks, observed, fine, cases, n, required);
      var c := CaseOf(cases[n], required);
      if c.None? {
        errors.Append(BadCase(which));
        fine := false;
        continue;
      }
      if c.value in observed {
        errors.Append(DuplicateCase(which));
        fine := false;
        continue;
      }
      observed := observed + {c.value};
      fine := fine && ProperCase(cases[n], required) && Fresh(checks, SeenIn(c.value, ChecksIn(cases[n])));
      checks := ReadCase(cases[n], c.value, required, which, errors, checks);
    }
    assert cases[..|cases|] == cases;
  }

  // ----- the whole report -----

  method ReadHeader(report: Json, which: string, errors: ErrorList<Issue>)
    modifies errors
    ensures Grown(old(errors.items), errors.items, Header(report))
  {
    if Get(report, "schemaVersion") != Num(SCHEMA) {
      errors.Append(BadHeader(which));
    }
    if Get(report, "reviewer") != Str(REVIEWER) {
      errors.Append(BadHeader(which));
    }
    var modes := Get(report, if IsFull(report) then "modes" else "requiredModes");
    if modes != List(Strings(MODES)) {
      errors.Append(BadHeader(which));
    }
  }

  ghost predicate BodyRead(checks: Checks, observed: set<Case>, fine: bool, report: Json, required: set<Case>) {
    && checks == Probes(report, required) && observed == ObservedCases(report, required)
    && (fine <==> ProperBody(report, required) && SeenOnce(Observations(report, required)))
  }

  method ReadCompact(report: Json, required: set<Case>, which: string, errors: ErrorList<Issue>)
    returns (checks: Checks, observed: set<Case>, ghost fine: bool)
    requires !IsFull(report)
    modifies errors
    ensures Grown(old(errors.items), errors.items, fine)
    ensures BodyRead(checks, observed, fine, report, required)
  {
    if Get(report, "baselineKind") != Str(KIND) {
      errors.Append(BadFormat(which));
    }
    var rawCases := Get(report, "requiredCases");
    if !rawCases.List? {
      errors.Append(BadFormat(which));
    }
    observed := ReadPlainCases(Items(rawCases), which, errors);
    ghost var shaped := |errors.items| == |old(errors.items)|;
    ghost var sound;
    checks, sound := ReadBuckets(report, required, which, errors);
    fine := shaped && sound;
  }

  method ReadBuckets(report: Json, required: set<Case>, which: string, errors: ErrorList<Issue>)
    returns (checks: Checks, ghost fine: bool)
    requires !IsFull(report)
    modifies errors
    ensures Grown(old(errors.items), errors.items, fine)
    ensures checks == Probes(report, required)
    ensures fine <==>
      && ProperBucket(Bucket(report, true), true, required) && ProperBucket(Bucket(report, false), false, required)
      && SeenOnce(Observations(report, required))
  {
    fine := true;
    if !Get(report, "checks").Object? {
      errors.Append(BadFormat(which));
    }
    ghost var first, second;
    checks, first := ReadNamedBucket(Bucket(report, true), true, required, which, errors, map[]);
    checks, second := ReadNamedBucket(Bucket(report, false), false, required, which, errors, checks);
    fine := first && second;
    PutAppend(map[], SeenInBucket(Items(Bucket(report, true)), true, required),
              SeenInBucket(Items(Bucket(report, false)), false, required));
  }

  method ReadNamedBucket(bucket: Json, success: bool, required: set<Case>, which: string, errors: ErrorList<Issue>,
                         before: Checks) returns (checks: Checks, ghost fine: bool)
    modifies errors
    ensures Grown(old(errors.items), errors.items, fine)
    ensures checks == PutAll(before, SeenInBucket(Items(bucket), success, required))
    ensures fine <==>
      ProperBucket(bucket, success, required) && Fresh(before, SeenInBucket(Items(bucket), success, required))
  {
    if !bucket.List? {
      errors.Append(BadFormat(which));
      return before, false;
    }
    checks, fine := ReadBucket(bucket.items, success, required, which, errors, before);
  }

  method ReadFull(report: Json, required: set<Case>, which: string, errors: ErrorList<Issue>)
    returns (checks: Checks, observed: set<Case>, ghost fine: bool)
    requires IsFull(report)
    modifies errors
    ensures Grown(old(errors.items), errors.items, fine)
    ensures BodyRead(checks, observed, fine, report, required)
  {
    var rawCases := Get(report, "cases");
    if !rawCases.List? {
      errors.Append(BadFormat(which));
    }
    ghost var proper;
    checks, observed, proper := ReadCases(Items(rawCases), required, which, errors);
    fine := rawCases.List? && proper;
  }

  method AppendEach(cases: set<Case>, issue: Issue, errors: ErrorList<Issue>)
    modifies errors
    ensures Grown(old(errors.items), errors.items, cases == {})
  {
    var rest := cases;
    while rest != {}
      invariant rest <= cases && Grown(old(errors.items), errors.items, rest == cases)
      decreases |rest|
    {
      var c :| c in rest;
      errors.Append(issue);
      rest := rest - {c};
    }
  }

  method CompareCases(observed: set<Case>, required: set<Case>, which: string, errors: ErrorList<Issue>)
    modifies errors
    ensures Grown(old(errors.items), errors.items, observed == required)
  {
    AppendEach(required - observed, MissingCase(which), errors);
    AppendEach(observed - required, UnexpectedCase(which), errors);
    assert observed == required <==> required - observed == {} && observed - required == {};
  }

  method CheckTotals(report: Json, checks: Checks, observed: set<Case>, which: string, errors: ErrorList<Issue>)
    modifies errors
    ensures Grown(old(errors.items), errors.items, TotalsAgree(report, checks, observed))
  {
    var passing := |Passing(checks)|;
    var failed := |checks| - passing;
    var summary := Get(report, "summary");
    if !SummaryAgrees(summary, checks, observed) {
      errors.Append(WrongTotals(which));
    }
    if IsFull(report) && Get(report, "success") != Bool(observed != {} && failed == 0) {
      errors.Append(WrongSuccess(which));
    }
  }

  /** Collect the probes of a report in either format. */
  method RequiredChecks(report: Json, required: set<Case>, which: string,
                        errors: ErrorList<Issue>) returns (checks: Checks)
    modifies errors
    ensures Grown(old(errors.items), errors.items, Consistent(report, required))
    ensures checks == Probes(report, required)
  {
    ReadHeader(report, which, errors);
    var observed;
    ghost var fine;
    if IsFull(report) {
      checks, observed, fine := ReadFull(report, required, which, errors);
    } else {
      checks, observed, fine := ReadCompact(report, required, which, errors);
    }
    CompareCases(observed, required, which, errors);
    CheckTotals(report, checks, observed, which, errors);
  }

  // ----- the verdict -----

  method SortedKeys(checks: Checks) returns (ids: seq<Probe>)
    ensures Sorted(ids) && forall id :: id in ids <==> id in checks
  {
    forall a, b | Row(a) == Row(b)
      ensures a == b
    {
      assert Row(a)[0] == Row(b)[0] && Row(a)[1] == Row(b)[1] && Row(a)[2] == Row(b)[2];
    }
    ids := Sort(checks.Keys, Row);
  }

  method JudgeCandidate(candidate: Checks, baseline: Checks) returns (known: seq<Probe>, newFailures: seq<Probe>)
    ensures Sorted(known) && forall id :: id in known <==> KnownFailure(candidate, baseline, id)
    ensures Sorted(newFailures) && forall id :: id in newFailures <==> NewFailure(candidate, baseline, id)
  {
    var ids := SortedKeys(candidate);
    known, newFailures := [], [];
    ghost var isKnown := iset id | KnownFailure(candidate, baseline, id);
    ghost var isNew := iset id | NewFailure(candidate, baseline, id);
    PicksNone(ids, isKnown, Row);
    PicksNone(ids, isNew, Row);
    for n := 0 to |ids|
      invariant known in Picks(ids, n, isKnown, Row) && newFailures in Picks(ids, n, isNew, Row)
    {
      var id := ids[n];
      PicksStep(known, ids, n, isKnown, Row);
      PicksStep(newFailures, ids, n, isNew, Row);
      if candidate[id] {
        continue;
      }
      if id in baseline && !baseline[id] {
        known := known + [id];
      } else {
        newFailures := newFailures + [id];
      }
    }
    PicksAll(known, ids, isKnown, Row);
    PicksAll(newFailures, ids, isNew, Row);
  }

  method JudgeBaseline(candidate: Checks, baseline: Checks) returns (missing: seq<Probe>, fixed: seq<Probe>)
    ensures Sorted(missing) && forall id :: id in missing <==> Missing(candidate, baseline, id)
    ensures Sorted(fixed) && forall id :: id in fixed <==> Fixed(candidate, baseline, id)
  {
    var ids := SortedKeys(baseline);
    missing, fixed := [], [];
    ghost var isMissing := iset id | Missing(candidate, baseline, id);
    ghost var isFixed := iset id | Fixed(candidate, baseline, id);
    PicksNone(ids, isMissing, Row);
    PicksNone(ids, isFixed, Row);
    for n := 0 to |ids|
      invariant missing in Picks(ids, n, isMissing, Row) && fixed in Picks(ids, n, isFixed, Row)
    {
      var id := ids[n];
      PicksStep(missing, ids, n, isMissing, Row);
      PicksStep(fixed, ids, n, isFixed, Row);
      if id !in candidate {
        missing := missing + [id];
      } else if !baseline[id] && candidate[id] {
        fixed := fixed + [id];
      }
    }
    PicksAll(missing, ids, isMissing, Row);
    PicksAll(fixed, ids, isFixed, Row);
  }

  /** Judge a candidate report against a baseline report. */
  method EvaluateGate(report: Json, baseline: Json, required: set<Case>) returns (v: Verdict, issues: seq<Issue>)
    ensures Judges(v, report, baseline, required)
    ensures v.success <==> issues == [] && v.newFailures == [] && v.missing == []
  {
    var errors := new ErrorList<Issue>();
    var baselineChecks := RequiredChecks(baseline, required, "baseline", errors);
    var candidateChecks := RequiredChecks(report, required, "candidate", errors);
    var known, newFailures := JudgeCandidate(candidateChecks, baselineChecks);
    var missing, fixed := JudgeBaseline(candidateChecks, baselineChecks);
    issues := errors.items;
    v := Verdict(issues == [] && newFailures == [] && missing == [], known, newFailures, missing, fixed);
    NothingWrong(v, candidateChecks, baselineChecks);
  }

  /** The two lists are empty exactly when no probe failed anew or is missing. */
  lemma NothingWrong(v: Verdict, candidate: Checks, baseline: Checks)
    requires ListsRight(v, candidate, baseline)
    ensures v.newFailures == [] && v.missing == [] <==>
      forall id :: !NewFailure(candidate, baseline, id) && !Missing(candidate, baseline, id)
  {
    assert v.newFailures != [] ==> v.newFailures[0] in v.newFailures;
    assert v.missing != [] ==> v.missing[0] in v.missing;
  }

  // ----- making a compact baseline -----

  method SortedWith(checks: Checks, success: bool) returns (ids: seq<Probe>)
    ensures Lists(ids, checks, success)
  {
    var keys := SortedKeys(checks);
    ids := [];
    ghost var wanted := iset id | id in checks && checks[id] == success;
    PicksNone(keys, wanted, Row);
    for n := 0 to |keys|
      invariant ids in Picks(keys, n, wanted, Row)
    {
      PicksStep(ids, keys, n, wanted, Row);
      if checks[keys[n]] == success {
        ids := ids + [keys[n]];
      }
    }
    PicksAll(ids, keys, wanted, Row);
  }

  method SortedCases(required: set<Case>) returns (cases: seq<Case>)
    ensures ListsCases(cases, required)
  {
    forall a, b | CaseRow(a) == CaseRow(b)
      ensures a == b
    {
      assert CaseRow(a)[0] == CaseRow(b)[0] && CaseRow(a)[1] == CaseRow(b)[1];
    }
    cases := Sort(required, CaseRow);
  }

  /** The compact form of a report, or the reasons against it. */
  method CompactBaseline(report: Json, required: set<Case>) returns (r: Result<Json, seq<Issue>>)
    ensures r.Ok? <==> Consistent(report, required)
    ensures r.Ok? ==> IsCompact(r.value, report, required)
    ensures r.Err? ==> r.error != []
  {
    var errors := new ErrorList<Issue>();
    var checks := RequiredChecks(report, required, "baseline", errors);
    if errors.items != [] {
      return Err(errors.items);
    }
    var cases := SortedCases(required);
    var passing := SortedWith(checks, true);
    var failing := SortedWith(checks, false);
    return Ok(CompactReport(Get(report, "summary"), cases, passing, failing));
  }
}
