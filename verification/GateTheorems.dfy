/** What the regression gate guarantees: passing is a preorder, and compact baselines judge as the full
    reports do. */
module GateTheorems {
  import opened Wrappers
  import opened Json
  import opened Ordering
  import opened Gate

  // ----- passing is a preorder -----

  lemma Reflexive(report: Json, catalog: Catalog)
    ensures Passes(report, report, catalog) <==> Compactable(report, catalog)
  {
  }

  /** A candidate that passes against a report that passed against a baseline passes against the baseline. */
  lemma PassesTransitive(a: Json, b: Json, c: Json, catalog: Catalog)
    requires Passes(b, a, catalog) && Passes(c, b, catalog)
    ensures Passes(c, a, catalog)
  {
    forall id
      ensures !NewFailure(c, a, id) && !Missing(c, a, id)
    {
      assert !NewFailure(b, a, id) && !Missing(b, a, id);
      assert !NewFailure(c, b, id) && !Missing(c, b, id);
    }
  }

  // ----- the verdict is determined -----

  lemma VerdictUnique(v: Verdict, w: Verdict, report: Json, baseline: Json, catalog: Catalog)
    requires Judges(v, report, baseline, catalog) && Judges(w, report, baseline, catalog)
    ensures v == w
  {
    AscendingUnique(v.newFailures, w.newFailures, Row);
    AscendingUnique(v.missing, w.missing, Row);
    AscendingUnique(v.known, w.known, Row);
    AscendingUnique(v.fixed, w.fixed, Row);
  }

  // ----- compact baselines -----

  predicate ValidIdentity(id: Identity) {
    id.mode in MODES && id.transport in TRANSPORTS && IsSource(Str(id.source)) && id.checkId != ""
  }

  lemma RecordedValid(report: Json, id: Identity, st: Status)
    requires Recorded(report, id, st)
    ensures ValidIdentity(id)
  {
    if IsFull(report) {
      var checks := CaseChecks(Cases(report), id.mode, id.transport);
      var i :| 0 <= i < |checks| && Notes(id.mode, id.transport, checks[i], id, st);
    } else {
      var records := Bucket(report, st).items;
      var i :| 0 <= i < |records| && RecordIdentity(records[i]) == Some(id);
    }
  }

  lemma IdentityReadBack(id: Identity)
    ensures RecordIdentity(IdentityJson(id)) == if ValidIdentity(id) then Some(id) else None
  {
  }

  lemma RecordsListed(ids: seq<Identity>, id: Identity)
    requires forall x :: x in ids ==> ValidIdentity(x)
    ensures Listed(Records(ids), id) <==> id in ids
  {
    forall i | 0 <= i < |ids|
      ensures RecordIdentity(Records(ids)[i]) == Some(ids[i])
    {
      IdentityReadBack(ids[i]);
    }
    if id in ids {
      var i :| 0 <= i < |ids| && ids[i] == id;
      assert RecordIdentity(Records(ids)[i]) == Some(id);
    }
  }

  lemma CompactLists(compact: Json, report: Json) returns (passing: seq<Identity>, failing: seq<Identity>)
    requires IsCompact(compact, report)
    ensures Lists(passing, report, Pass) && Lists(failing, report, Fail)
            && compact == CompactReport(report, passing, failing)
    ensures Bucket(compact, Pass) == List(Records(passing)) && Bucket(compact, Fail) == List(Records(failing))
  {
    passing, failing :|
      Lists(passing, report, Pass) && Lists(failing, report, Fail)
        && compact == CompactReport(report, passing, failing);
    CompactBucket(report, passing, failing);
  }

  lemma CompactBucket(report: Json, passing: seq<Identity>, failing: seq<Identity>)
    ensures var compact := CompactReport(report, passing, failing);
      Bucket(compact, Pass) == List(Records(passing)) && Bucket(compact, Fail) == List(Records(failing))
  {
    var checks := Get(CompactReport(report, passing, failing), "checks");
    assert checks == Object(map["passing" := List(Records(passing)), "failing" := List(Records(failing))]);
    assert "passing"[0] != "failing"[0];
  }

  lemma CompactKind(report: Json, passing: seq<Identity>, failing: seq<Identity>)
    ensures Get(CompactReport(report, passing, failing), "baselineKind") == Str(KIND)
  {
  }

  lemma ListsValid(ids: seq<Identity>, report: Json, st: Status)
    requires Lists(ids, report, st)
    ensures forall id :: id in ids ==> ValidIdentity(id)
  {
    forall id | id in ids
      ensures ValidIdentity(id)
    {
      RecordedValid(report, id, st);
    }
  }

  lemma RecordedCompact(compact: Json, id: Identity, st: Status)
    requires Get(compact, "baselineKind") == Str(KIND)
    ensures Recorded(compact, id, st)
            <==> !st.Skip? && Bucket(compact, st).List? && Listed(Bucket(compact, st).items, id)
  {
  }

  /** The compact form records the passing and failing checks, and drops what was only skipped. */
  lemma CompactRecords(compact: Json, report: Json, id: Identity, st: Status)
    requires IsCompact(compact, report)
    ensures Recorded(compact, id, st) <==> !st.Skip? && Recorded(report, id, st)
  {
    var passing, failing := CompactLists(compact, report);
    CompactKind(report, passing, failing);
    ListsValid(passing, report, Pass);
    ListsValid(failing, report, Fail);
    RecordsListed(passing, id);
    RecordsListed(failing, id);
    RecordedCompact(compact, id, st);
  }

  ghost predicate Ran(report: Json, id: Identity) {
    Recorded(report, id, Pass) || Recorded(report, id, Fail)
  }

  ghost predicate RanUnder(report: Json, mode: string, transport: string) {
    exists id :: Ran(report, id) && id.mode == mode && id.transport == transport
  }

  ghost predicate RanScenario(report: Json, mode: string, scenario: string) {
    exists id :: Ran(report, id) && Shows(id, mode) && id.scenario == scenario
  }

  /** Every required case and every scenario of a mode has a check that was not skipped. */
  ghost predicate ModeRan(report: Json, mode: string, catalog: Catalog) {
    && (forall t :: 0 <= t < |TRANSPORTS| ==> RanUnder(report, mode, TRANSPORTS[t]))
    && (forall scenario :: scenario in catalog(mode) ==> RanScenario(report, mode, scenario))
  }

  ghost predicate AllRan(report: Json, catalog: Catalog) {
    forall m :: 0 <= m < |MODES| ==> ModeRan(report, MODES[m], catalog)
  }

  lemma CompactFormat(compact: Json, report: Json)
    requires IsCompact(compact, report)
    ensures Get(compact, "baselineKind") == Str(KIND) && Get(compact, "requiredModes") == List(Strings(MODES))
    ensures Get(compact, "transports") == List([Str(STDIO), Str(HTTP)])
    ensures Get(compact, "automaticAuthRequired") == Get(report, "automaticAuthRequired")
  {
    var passing, failing := CompactLists(compact, report);
  }

  lemma CompactHead(compact: Json, report: Json)
    requires IsCompact(compact, report)
    ensures Get(compact, "schemaVersion") == Num(SCHEMA) && Get(Get(compact, "versionCheck"), "success") == Bool(true)
    ensures Get(compact, "modernFeatureEnablement") == Bool(true)
    ensures Get(compact, "officialConformance") == CompactOfficial(Get(Get(report, "officialConformance"), "scenarios"))
  {
    var passing, failing := CompactLists(compact, report);
  }

  lemma CompactPinned(scenarios: Json)
    ensures Pinned(CompactOfficial(scenarios))
    ensures forall mode ::
      mode in MODES ==> Get(Get(CompactOfficial(scenarios), "scenarios"), mode) == Get(scenarios, mode)
  {
    assert Get(CompactOfficial(scenarios), "scenarios") == Object(map mode | mode in MODES :: Get(scenarios, mode));
  }

  lemma CompactHeader(compact: Json, report: Json, catalog: Catalog)
    requires IsCompact(compact, report) && Complete(report, catalog)
    ensures Header(compact)
    ensures forall m :: 0 <= m < |MODES| ==> Catalogued(compact, MODES[m], catalog)
  {
    CompactHead(compact, report);
    CompactPinned(Get(Get(report, "officialConformance"), "scenarios"));
    forall m | 0 <= m < |MODES|
      ensures Catalogued(compact, MODES[m], catalog)
    {
      assert Catalogued(report, MODES[m], catalog);
    }
  }

  lemma SortedDistinct(ids: seq<Identity>, i: nat, j: nat)
    requires Sorted(ids) && i < j < |ids|
    ensures ids[i] != ids[j]
  {
    Trichotomy(Row(ids[i]), Row(ids[j]));
  }

  lemma ProperRecords(ids: seq<Identity>)
    requires Sorted(ids) && forall id :: id in ids ==> ValidIdentity(id)
    ensures ProperBucket(Records(ids))
  {
    forall i | 0 <= i < |ids|
      ensures RecordIdentity(Records(ids)[i]) == Some(ids[i])
    {
      IdentityReadBack(ids[i]);
    }
    forall i, j | 0 <= i < j < |ids|
      ensures RecordIdentity(Records(ids)[i]) != RecordIdentity(Records(ids)[j])
    {
      SortedDistinct(ids, i, j);
    }
  }

  lemma CompactBuckets(compact: Json, report: Json)
    requires IsCompact(compact, report)
    ensures Bucket(compact, Pass).List? && ProperBucket(Bucket(compact, Pass).items)
    ensures Bucket(compact, Fail).List? && ProperBucket(Bucket(compact, Fail).items)
  {
    var passing, failing := CompactLists(compact, report);
    ListsValid(passing, report, Pass);
    ListsValid(failing, report, Fail);
    ProperRecords(passing);
    ProperRecords(failing);
  }

  ghost predicate DropsSkips(compact: Json, report: Json) {
    forall id, st :: Recorded(compact, id, st) <==> !st.Skip? && Recorded(report, id, st)
  }

  lemma CompactDropsSkips(compact: Json, report: Json)
    requires IsCompact(compact, report)
    ensures DropsSkips(compact, report)
  {
    forall id, st
      ensures Recorded(compact, id, st) <==> !st.Skip? && Recorded(report, id, st)
    {
      CompactRecords(compact, report, id, st);
    }
  }

  lemma CoversRan(compact: Json, report: Json, mode: string, transport: string)
    requires DropsSkips(compact, report)
    ensures Covers(compact, mode, transport) <==> RanUnder(report, mode, transport)
  {
    if id :| Ran(report, id) && id.mode == mode && id.transport == transport {
      assert Recorded(compact, id, Pass) || Recorded(compact, id, Fail);
    }
  }

  lemma ObservedRan(compact: Json, report: Json, mode: string, scenario: string)
    requires DropsSkips(compact, report)
    ensures Observed(compact, mode, scenario) <==> RanScenario(report, mode, scenario)
    ensures Observed(compact, mode, scenario) ==> Observed(report, mode, scenario)
  {
    if id :| Ran(report, id) && Shows(id, mode) && id.scenario == scenario {
      assert Recorded(compact, id, Pass) || Recorded(compact, id, Fail);
    }
  }

  /** What a mode shows in the compact form is what ran. */
  lemma CompactMode(compact: Json, report: Json, mode: string, catalog: Catalog)
    requires DropsSkips(compact, report) && AllScenarios(report, mode, catalog)
    requires Catalogued(compact, mode, catalog)
    ensures ModeListed(compact, mode, catalog) <==> ModeRan(report, mode, catalog)
  {
    forall t | 0 <= t < |TRANSPORTS|
      ensures Covers(compact, mode, TRANSPORTS[t]) <==> RanUnder(report, mode, TRANSPORTS[t])
    {
      CoversRan(compact, report, mode, TRANSPORTS[t]);
    }
    forall scenario
      ensures Observed(compact, mode, scenario) <==> RanScenario(report, mode, scenario)
      ensures Observed(compact, mode, scenario) ==> scenario in catalog(mode)
    {
      ObservedRan(compact, report, mode, scenario);
    }
  }

  /** The compact form is itself complete exactly when nothing required was only skipped. */
  lemma CompactComplete(compact: Json, report: Json, catalog: Catalog)
    requires IsCompact(compact, report) && Complete(report, catalog)
    ensures Complete(compact, catalog) <==> AllRan(report, catalog)
  {
    CompactFormat(compact, report);
    CompactHeader(compact, report, catalog);
    CompactBuckets(compact, report);
    CompactDropsSkips(compact, report);
    forall m | 0 <= m < |MODES|
      ensures ModeListed(compact, MODES[m], catalog) <==> ModeRan(report, MODES[m], catalog)
    {
      assert AllScenarios(report, MODES[m], catalog);
      CompactMode(compact, report, MODES[m], catalog);
    }
  }

  lemma SameFailures(compact: Json, report: Json, baseline: Json, id: Identity)
    requires Recorded(compact, id, Fail) == Recorded(baseline, id, Fail)
    ensures NewFailure(report, compact, id) == NewFailure(report, baseline, id)
    ensures KnownFailure(report, compact, id) == KnownFailure(report, baseline, id)
  {
  }

  lemma SameLosses(compact: Json, report: Json, baseline: Json, id: Identity)
    requires Recorded(compact, id, Pass) == Recorded(baseline, id, Pass)
    requires Recorded(compact, id, Fail) == Recorded(baseline, id, Fail)
    ensures Missing(report, compact, id) == Missing(report, baseline, id)
    ensures Fixed(report, compact, id) == Fixed(report, baseline, id)
  {
  }

  lemma SameMembers(compact: Json, report: Json, baseline: Json, v: Verdict, w: Verdict, catalog: Catalog, id: Identity)
    requires DropsSkips(compact, baseline)
    requires Judges(v, report, compact, catalog) && Judges(w, report, baseline, catalog)
    ensures id in v.newFailures <==> id in w.newFailures
    ensures id in v.missing <==> id in w.missing
    ensures id in v.known <==> id in w.known
    ensures id in v.fixed <==> id in w.fixed
  {
    SameFailures(compact, report, baseline, id);
    SameLosses(compact, report, baseline, id);
  }

  lemma SameLists(compact: Json, report: Json, baseline: Json, v: Verdict, w: Verdict, catalog: Catalog)
    requires DropsSkips(compact, baseline)
    requires Judges(v, report, compact, catalog) && Judges(w, report, baseline, catalog)
    ensures v.(success := w.success) == w
  {
    forall id
      ensures id in v.newFailures <==> id in w.newFailures
      ensures id in v.missing <==> id in w.missing
      ensures id in v.known <==> id in w.known
      ensures id in v.fixed <==> id in w.fixed
    {
      SameMembers(compact, report, baseline, v, w, catalog, id);
    }
    AscendingUnique(v.newFailures, w.newFailures, Row);
    AscendingUnique(v.missing, w.missing, Row);
    AscendingUnique(v.known, w.known, Row);
    AscendingUnique(v.fixed, w.fixed, Row);
  }

  lemma SamePassing(compact: Json, report: Json, baseline: Json, catalog: Catalog)
    requires IsCompact(compact, baseline) && Compactable(baseline, catalog)
    ensures Passes(report, compact, catalog) <==> Passes(report, baseline, catalog) && AllRan(baseline, catalog)
  {
    CompactDropsSkips(compact, baseline);
    CompactFormat(compact, baseline);
    CompactComplete(compact, baseline, catalog);
    forall id
      ensures NewFailure(report, compact, id) <==> NewFailure(report, baseline, id)
      ensures Missing(report, compact, id) <==> Missing(report, baseline, id)
    {
      SameFailures(compact, report, baseline, id);
      SameLosses(compact, report, baseline, id);
    }
    assert ShippingClean(compact);
  }

  /** Against the compact form of a baseline every candidate gets the same four lists; it passes exactly
      when it passes against the full form and nothing required was only skipped there. */
  lemma CompactFaithful(compact: Json, report: Json, baseline: Json, v: Verdict, w: Verdict, catalog: Catalog)
    requires IsCompact(compact, baseline) && Compactable(baseline, catalog)
    requires Judges(v, report, compact, catalog) && Judges(w, report, baseline, catalog)
    ensures v.(success := w.success) == w
    ensures v.success <==> w.success && AllRan(baseline, catalog)
    ensures AllRan(baseline, catalog) ==> v == w
  {
    CompactDropsSkips(compact, baseline);
    SameLists(compact, report, baseline, v, w, catalog);
    SamePassing(compact, report, baseline, catalog);
  }

  /** Compacting a compact baseline changes nothing, and it can be done exactly when nothing required was
      only skipped. */
  lemma CompactIdempotent(compact: Json, again: Json, report: Json, catalog: Catalog)
    requires IsCompact(compact, report) && Compactable(report, catalog) && IsCompact(again, compact)
    ensures again == compact
    ensures Compactable(compact, catalog) <==> AllRan(report, catalog)
  {
    CompactDropsSkips(compact, report);
    CompactComplete(compact, report, catalog);
    CompactFormat(compact, report);
    CompactHead(compact, report);
    var p, f :| Lists(p, report, Pass) && Lists(f, report, Fail) && compact == CompactReport(report, p, f);
    var q, g :| Lists(q, compact, Pass) && Lists(g, compact, Fail) && again == CompactReport(compact, q, g);
    SameStatus(p, q, compact, report, Pass);
    SameStatus(f, g, compact, report, Fail);
    SameOfficial(Get(Get(report, "officialConformance"), "scenarios"));
    assert ShippingClean(compact);
  }

  lemma SameStatus(p: seq<Identity>, q: seq<Identity>, compact: Json, report: Json, st: Status)
    requires !st.Skip? && DropsSkips(compact, report) && Lists(p, report, st) && Lists(q, compact, st)
    ensures p == q
  {
    AscendingUnique(p, q, Row);
  }

  lemma SameOfficial(scenarios: Json)
    ensures CompactOfficial(Get(CompactOfficial(scenarios), "scenarios")) == CompactOfficial(scenarios)
  {
    var once := map mode | mode in MODES :: Get(scenarios, mode);
    assert Get(CompactOfficial(scenarios), "scenarios") == Object(once);
    assert (map mode | mode in MODES :: Get(Object(once), mode)) == once;
  }

  /** Release `i + 1` was judged against the compact baseline of release `i`. */
  ghost predicate Released(releases: seq<Json>, compacts: seq<Json>, i: nat, catalog: Catalog)
    requires |releases| == |compacts| + 1 && i < |compacts|
  {
    && Compactable(releases[i], catalog) && IsCompact(compacts[i], releases[i])
    && Passes(releases[i + 1], compacts[i], catalog)
  }

  ghost predicate History(releases: seq<Json>, compacts: seq<Json>, catalog: Catalog) {
    |releases| == |compacts| + 1 && forall i :: 0 <= i < |compacts| ==> Released(releases, compacts, i, catalog)
  }

  lemma NextRelease(releases: seq<Json>, compacts: seq<Json>, i: nat, catalog: Catalog)
    requires History(releases, compacts, catalog) && i < |compacts|
    ensures Passes(releases[i + 1], releases[i], catalog)
  {
    assert Released(releases, compacts, i, catalog);
    SamePassing(compacts[i], releases[i + 1], releases[i], catalog);
  }

  /** When every release is judged against the compact baseline of the one before, each release passes
      against the first: no check is lost and no failure enters along the way. */
  lemma NoDrift(releases: seq<Json>, compacts: seq<Json>, catalog: Catalog, n: nat)
    requires History(releases, compacts, catalog) && Compactable(releases[0], catalog) && n < |releases|
    ensures Passes(releases[n], releases[0], catalog)
  {
    var passes := iset report: Json, baseline: Json | Passes(report, baseline, catalog) :: (report, baseline);
    Reflexive(releases[0], catalog);
    forall a, b, c | (b, a) in passes && (c, b) in passes
      ensures (c, a) in passes
    {
      PassesTransitive(a, b, c, catalog);
    }
    forall i | 0 <= i < |releases| - 1
      ensures Linked(passes, releases, i)
    {
      NextRelease(releases, compacts, i, catalog);
    }
    ChainReaches(passes, releases, n);
  }

  // ----- numbered observations -----

  lemma LastHashAt(stem: string, digits: string)
    requires '#' !in digits
    ensures LastHash(stem + "#" + digits) == |stem|
  {
    var name := stem + "#" + digits;
    var n := LastHash(name);
    assert name[|stem|] == '#';
    assert forall i :: |stem| < i < |name| ==> name[i] in digits;
    assert n >= |stem|;
  }

  /** Exactly the number after the last hash sign is dropped, so the retries of one check count as one. */
  lemma StableNameMeaning(name: string, stem: string, digits: string)
    requires stem != ""
    ensures IsDecimal(digits) ==> StableName(stem + "#" + digits) == stem
    ensures StableName(name) != name ==>
      exists rest :: IsDecimal(rest) && name == StableName(name) + "#" + rest
  {
    if IsDecimal(digits) {
      LastHashAt(stem, digits);
      var numbered := stem + "#" + digits;
      assert numbered[|stem| + 1..] == digits && numbered[..|stem|] == stem;
    }
    if StableName(name) != name {
      var n := LastHash(name);
      assert name == name[..n] + "#" + name[n + 1..];
      assert IsDecimal(name[n + 1..]);
    }
  }
}
