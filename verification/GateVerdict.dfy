/** What passing the regression gate promises of every single check, and what each list of a verdict says. */
module GateVerdict {
  import opened Json
  import opened Ordering
  import opened Gate
  import opened GateTheorems

  /** A check that passed still passes, one that failed is still seen, and none fails that did not fail. */
  predicate NoWorse(report: Json, baseline: Json, id: Identity) {
    && (Recorded(baseline, id, Pass) ==> Recorded(report, id, Pass))
    && (Recorded(baseline, id, Fail) ==> Recorded(report, id, Pass) || Recorded(report, id, Fail))
    && (Recorded(report, id, Fail) ==> Recorded(baseline, id, Fail))
  }

  /** A candidate passes exactly when both reports are complete under one policy, no shipping check fails
      in either, and no check is worse than in the baseline. */
  lemma PassesExactly(report: Json, baseline: Json, catalog: Catalog)
    ensures Passes(report, baseline, catalog) <==>
      && Complete(baseline, catalog) && Complete(report, catalog)
      && Get(report, "automaticAuthRequired").Bool?
      && Get(report, "automaticAuthRequired") == Get(baseline, "automaticAuthRequired")
      && (forall id: Identity :: id.mode == SHIPPING ==> !Recorded(report, id, Fail) && !Recorded(baseline, id, Fail))
      && forall id :: NoWorse(report, baseline, id)
  {
    assert (forall id :: NoWorse(report, baseline, id)) <==>
      forall id :: !NewFailure(report, baseline, id) && !Missing(report, baseline, id) by {
      forall id
        ensures NoWorse(report, baseline, id) <==> !NewFailure(report, baseline, id) && !Missing(report, baseline, id)
      {
      }
    }
  }

  /** Along any chain of releases, each judged against the compact baseline of the one before, no check is
      worse than in the first. */
  lemma NoneWorse(releases: seq<Json>, compacts: seq<Json>, catalog: Catalog, n: nat, id: Identity)
    requires History(releases, compacts, catalog) && Compactable(releases[0], catalog) && n < |releases|
    ensures NoWorse(releases[n], releases[0], id)
  {
    NoDrift(releases, compacts, catalog, n);
    PassesExactly(releases[n], releases[0], catalog);
  }

  /** Which checks each list of a verdict holds. */
  lemma ListsMean(v: Verdict, report: Json, baseline: Json, catalog: Catalog, id: Identity)
    requires Judges(v, report, baseline, catalog)
    ensures var (passed, failed) := (Recorded(baseline, id, Pass), Recorded(baseline, id, Fail));
      var (passes, fails) := (Recorded(report, id, Pass), Recorded(report, id, Fail));
      && (id in v.newFailures <==> fails && !failed)
      && (id in v.known <==> fails && failed)
      && (id in v.fixed <==> failed && passes && !fails)
      && (id in v.missing <==> (passed && !passes) || (failed && !passes && !fails))
  {
  }

  /** Every failure of the baseline is accounted for: known, fixed or missing. It is in two of these lists
      only when the baseline also passed the check and the candidate only fails it. */
  lemma FailuresAccounted(v: Verdict, report: Json, baseline: Json, catalog: Catalog, id: Identity)
    requires Judges(v, report, baseline, catalog) && Recorded(baseline, id, Fail)
    ensures id in v.known || id in v.fixed || id in v.missing
    ensures !(id in v.fixed && (id in v.known || id in v.missing))
    ensures id in v.known && id in v.missing <==>
      Recorded(baseline, id, Pass) && Recorded(report, id, Fail) && !Recorded(report, id, Pass)
  {
    ListsMean(v, report, baseline, catalog, id);
  }

  /** The lists decide: the candidate passes exactly when the reports can be compared and none is new or missing. */
  lemma ListsDecide(v: Verdict, report: Json, baseline: Json, catalog: Catalog)
    requires Judges(v, report, baseline, catalog)
    requires Complete(baseline, catalog) && Complete(report, catalog) && SamePolicy(report, baseline)
    requires ShippingClean(report) && ShippingClean(baseline)
    ensures v.success <==> v.newFailures == [] && v.missing == []
    ensures !v.success <==> exists id :: !NoWorse(report, baseline, id)
  {
    assert v.newFailures != [] ==> v.newFailures[0] in v.newFailures;
    assert v.missing != [] ==> v.missing[0] in v.missing;
    PassesExactly(report, baseline, catalog);
  }

  /** The lists of a verdict are in order of mode, then transport, source, scenario and check. */
  lemma ListOrder(ids: seq<Identity>, i: nat, j: nat)
    requires Sorted(ids) && i < j < |ids|
    ensures var (a, b) := (ids[i], ids[j]);
      || StringBefore(a.mode, b.mode)
      || (a.mode == b.mode && StringBefore(a.transport, b.transport))
      || (a.mode == b.mode && a.transport == b.transport && StringBefore(a.source, b.source))
      || (a.mode == b.mode && a.transport == b.transport && a.source == b.source
          && StringBefore(a.scenario, b.scenario))
      || (a.mode == b.mode && a.transport == b.transport && a.source == b.source && a.scenario == b.scenario
          && StringBefore(a.checkId, b.checkId))
  {
    var a, b := Row(ids[i]), Row(ids[j]);
    var k := DifferSomewhere(a, b);
    BeforeMeans(a, b, k);
    assert k < 5 && forall n :: 0 <= n < k ==> a[n] == b[n];
    assert k > 0 ==> a[0] == b[0];
    assert k > 1 ==> a[1] == b[1];
    assert k > 2 ==> a[2] == b[2];
    assert k > 3 ==> a[3] == b[3];
  }
}
