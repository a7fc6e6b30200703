/** What the review gate guarantees: compact baselines are faithful, and passing is a preorder. */
module ReviewTheorems {
  import opened Wrappers
  import opened Json
  import opened Ordering
  import opened Review

  // ----- dictionaries -----

  predicate Mentions(seen: seq<Seen>, id: Probe) {
    exists i :: 0 <= i < |seen| && seen[i].id == id
  }

  lemma {:induction false} PutAllKeys(m: Checks, seen: seq<Seen>, id: Probe)
    ensures id in PutAll(m, seen) <==> id in m || Mentions(seen, id)
  {
    if seen != [] {
      var n := |seen| - 1;
      PutAllKeys(m, seen[..n], id);
      assert forall i :: 0 <= i < n ==> seen[..n][i] == seen[i];
      if Mentions(seen[..n], id) {
        var i :| 0 <= i < n && seen[..n][i].id == id;
        assert seen[i].id == id;
      }
      if Mentions(seen, id) && seen[n].id != id {
        var i :| 0 <= i < |seen| && seen[i].id == id;
        assert seen[..n][i].id == id;
      }
    }
  }

  lemma {:induction false} PutAllValue(seen: seq<Seen>, i: nat)
    requires SeenOnce(seen) && i < |seen|
    ensures seen[i].id in PutAll(map[], seen) && PutAll(map[], seen)[seen[i].id] == seen[i].success
  {
    var n := |seen| - 1;
    assert SeenOnce(seen[..n]);
    if i < n {
      PutAllValue(seen[..n], i);
    } else {
      PutAllKeys(map[], seen[..n], seen[n].id);
    }
  }

  // ----- what a consistent full report shows -----

  lemma {:induction false} SeenInMember(c: Case, checks: seq<Json>, s: Seen)
    ensures s in SeenIn(c, checks) <==> exists k :: 0 <= k < |checks| && CheckOf(c, checks[k]) == Some(s)
  {
    if checks != [] {
      SeenInMember(c, checks[..|checks| - 1], s);
    }
  }

  /** Some case of the report has a check with this outcome. */
  predicate ShownBy(cases: seq<Json>, required: set<Case>, s: Seen) {
    exists i, k ::
      0 <= i < |cases| && 0 <= k < |ChecksIn(cases[i])| && Shown(cases[i], ChecksIn(cases[i])[k], required, s)
  }

  predicate Shown(j: Json, check: Json, required: set<Case>, s: Seen) {
    CaseOf(j, required).Some? && CheckOf(CaseOf(j, required).value, check) == Some(s)
  }

  lemma {:induction false} SeenInCasesMember(cases: seq<Json>, required: set<Case>, s: Seen)
    requires ProperCases(cases, required)
    ensures s in SeenInCases(cases, required) <==> ShownBy(cases, required, s)
  {
    if cases != [] {
      var n := |cases| - 1;
      var last := cases[n];
      SeenInCasesMember(cases[..n], required, s);
      SeenInMember(CaseOf(last, required).value, ChecksIn(last), s);
      assert forall i :: 0 <= i < n ==> cases[..n][i] == cases[i];
      if ShownBy(cases[..n], required, s) {
        var i, k :| 0 <= i < n && 0 <= k < |ChecksIn(cases[..n][i])|
          && Shown(cases[..n][i], ChecksIn(cases[..n][i])[k], required, s);
        assert Shown(cases[i], ChecksIn(cases[i])[k], required, s);
      }
      if s in SeenIn(CaseOf(last, required).value, ChecksIn(last)) {
        var k :| 0 <= k < |ChecksIn(last)| && CheckOf(CaseOf(last, required).value, ChecksIn(last)[k]) == Some(s);
        assert Shown(cases[n], ChecksIn(cases[n])[k], required, s);
      }
      if ShownBy(cases, required, s) {
        var i, k :| 0 <= i < |cases| && 0 <= k < |ChecksIn(cases[i])|
          && Shown(cases[i], ChecksIn(cases[i])[k], required, s);
        if i < n {
          assert Shown(cases[..n][i], ChecksIn(cases[..n][i])[k], required, s);
        }
      }
    }
  }

  /** The probes of a consistent full report are exactly the checks of its cases. */
  lemma ProbesMeaning(report: Json, required: set<Case>, id: Probe, success: bool)
    requires IsFull(report) && Consistent(report, required)
    ensures id in Probes(report, required) && Probes(report, required)[id] == success
       <==> ShownBy(Items(Get(report, "cases")), required, Seen(id, success))
  {
    var seen := Observations(report, required);
    SeenInCasesMember(Items(Get(report, "cases")), required, Seen(id, success));
    PutAllKeys(map[], seen, id);
    if id in Probes(report, required) {
      var i :| 0 <= i < |seen| && seen[i].id == id;
      PutAllValue(seen, i);
    }
    if Seen(id, success) in seen {
      var i :| 0 <= i < |seen| && seen[i] == Seen(id, success);
      PutAllValue(seen, i);
    }
  }

  // ----- every probe belongs to a required case -----

  predicate ValidProbe(id: Probe, required: set<Case>) {
    (id.mode, id.transport) in required && PREFIX <= id.checkId
  }

  predicate AllValid(seen: seq<Seen>, required: set<Case>) {
    forall i :: 0 <= i < |seen| ==> ValidProbe(seen[i].id, required)
  }

  lemma {:induction false} SeenInValid(c: Case, checks: seq<Json>, required: set<Case>)
    requires c in required
    ensures AllValid(SeenIn(c, checks), required)
  {
    if checks != [] {
      SeenInValid(c, checks[..|checks| - 1], required);
    }
  }

  lemma {:induction false} SeenInCasesValid(cases: seq<Json>, required: set<Case>)
    ensures AllValid(SeenInCases(cases, required), required)
  {
    if cases != [] {
      SeenInCasesValid(cases[..|cases| - 1], required);
      var last := cases[|cases| - 1];
      if CaseOf(last, required).Some? {
        SeenInValid(CaseOf(last, required).value, ChecksIn(last), required);
      }
    }
  }

  lemma {:induction false} SeenInBucketValid(records: seq<Json>, success: bool, required: set<Case>)
    ensures AllValid(SeenInBucket(records, success, required), required)
  {
    if records != [] {
      SeenInBucketValid(records[..|records| - 1], success, required);
    }
  }

  lemma ProbesValid(report: Json, required: set<Case>, id: Probe)
    requires id in Probes(report, required)
    ensures ValidProbe(id, required)
  {
    SeenInCasesValid(Items(Get(report, "cases")), required);
    SeenInBucketValid(Items(Bucket(report, true)), true, required);
    SeenInBucketValid(Items(Bucket(report, false)), false, required);
    PutAllKeys(map[], Observations(report, required), id);
  }

  // ----- reading the compact form -----

  function AllSeen(ids: seq<Probe>, success: bool): (r: seq<Seen>)
    ensures |r| == |ids| && forall i :: 0 <= i < |ids| ==> r[i] == Seen(ids[i], success)
  {
    seq(|ids|, i requires 0 <= i < |ids| => Seen(ids[i], success))
  }

  lemma ProbeReadBack(id: Probe, success: bool, required: set<Case>)
    requires ValidProbe(id, required)
    ensures RecordOf(ProbeJson(id), success, required) == Some(Seen(id, success))
  {
  }

  lemma {:induction false} BucketReadBack(ids: seq<Probe>, success: bool, required: set<Case>)
    requires forall id :: id in ids ==> ValidProbe(id, required)
    ensures SeenInBucket(ProbeJsons(ids), success, required) == AllSeen(ids, success)
    ensures ProperBucket(List(ProbeJsons(ids)), success, required)
  {
    if ids != [] {
      var n := |ids| - 1;
      BucketReadBack(ids[..n], success, required);
      assert ProbeJsons(ids)[..n] == ProbeJsons(ids[..n]);
      ProbeReadBack(ids[n], success, required);
    }
    forall i | 0 <= i < |ids|
      ensures RecordOf(ProbeJsons(ids)[i], success, required).Some?
    {
      ProbeReadBack(ids[i], success, required);
    }
  }

  /** The parts of a compact report. */
  lemma CompactParts(compact: Json, summary: Json, cases: seq<Case>, passing: seq<Probe>, failing: seq<Probe>)
    requires compact == CompactReport(summary, cases, passing, failing)
    ensures Header(compact) && Get(compact, "baselineKind") == Str(KIND) && !IsFull(compact)
    ensures Get(compact, "requiredCases") == List(CaseJsons(cases))
            && Get(compact, "summary") == CompactSummary(summary)
    ensures Bucket(compact, true) == List(ProbeJsons(passing)) && Bucket(compact, false) == List(ProbeJsons(failing))
  {
  }

  lemma ListDistinct(ids: seq<Probe>, i: nat, j: nat)
    requires Sorted(ids) && i < j < |ids|
    ensures ids[i] != ids[j]
  {
    Trichotomy(Row(ids[i]), Row(ids[j]));
  }

  lemma BothDistinct(passing: seq<Probe>, failing: seq<Probe>, checks: Checks)
    requires Lists(passing, checks, true) && Lists(failing, checks, false)
    ensures SeenOnce(AllSeen(passing, true) + AllSeen(failing, false))
  {
    var all := AllSeen(passing, true) + AllSeen(failing, false);
    forall i, j | 0 <= i < j < |all|
      ensures all[i].id != all[j].id
    {
      var n := |passing|;
      if j < n {
        ListDistinct(passing, i, j);
      } else if i >= n {
        ListDistinct(failing, i - n, j - n);
      } else {
        assert passing[i] in passing && failing[j - n] in failing;
      }
    }
  }

  lemma PutBoth(passing: seq<Probe>, failing: seq<Probe>, checks: Checks)
    requires Lists(passing, checks, true) && Lists(failing, checks, false)
    ensures PutAll(map[], AllSeen(passing, true) + AllSeen(failing, false)) == checks
  {
    var all := AllSeen(passing, true) + AllSeen(failing, false);
    BothDistinct(passing, failing, checks);
    var m := PutAll(map[], all);
    forall id
      ensures id in m <==> id in checks
      ensures id in m && id in checks ==> m[id] == checks[id]
    {
      PutAllKeys(map[], all, id);
      if id in passing {
        var i :| 0 <= i < |passing| && passing[i] == id;
        assert all[i] == Seen(id, true);
        PutAllValue(all, i);
      } else if id in failing {
        var i :| 0 <= i < |failing| && failing[i] == id;
        assert all[|passing| + i] == Seen(id, false);
        PutAllValue(all, |passing| + i);
      }
    }
  }

  /** The reader finds the same probes in the compact form as in the report it was made from. */
  lemma SameProbes(compact: Json, report: Json, required: set<Case>)
    requires IsCompact(compact, report, required)
    ensures Probes(compact, required) == Probes(report, required)
    ensures SeenOnce(Observations(compact, required))
    ensures ProperBucket(Bucket(compact, true), true, required) && ProperBucket(Bucket(compact, false), false, required)
  {
    var checks := Probes(report, required);
    var cases, passing, failing :|
      && ListsCases(cases, required) && Lists(passing, checks, true) && Lists(failing, checks, false)
      && compact == CompactReport(Get(report, "summary"), cases, passing, failing);
    CompactParts(compact, Get(report, "summary"), cases, passing, failing);
    forall id | id in passing || id in failing
      ensures ValidProbe(id, required)
    {
      ProbesValid(report, required, id);
    }
    BucketReadBack(passing, true, required);
    BucketReadBack(failing, false, required);
    BothDistinct(passing, failing, checks);
    PutBoth(passing, failing, checks);
  }

  lemma CasesReadBack(cases: seq<Case>, required: set<Case>)
    requires ListsCases(cases, required)
    ensures ProperPlainCases(CaseJsons(cases)) && PlainCaseSet(CaseJsons(cases)) == required
  {
    var jsons := CaseJsons(cases);
    forall i | 0 <= i < |cases|
      ensures PlainCaseOf(jsons[i]) == Some(cases[i])
    {
      assert jsons[i] == CaseJson(cases[i]);
    }
    forall i, j | 0 <= i < j < |cases|
      ensures PlainCaseOf(jsons[i]) != PlainCaseOf(jsons[j])
    {
      Trichotomy(CaseRow(cases[i]), CaseRow(cases[j]));
    }
    forall c
      ensures c in PlainCaseSet(jsons) <==> c in required
    {
      if c in required {
        var i :| 0 <= i < |cases| && cases[i] == c;
        assert PlainCaseOf(jsons[i]) == Some(c);
      }
      if c in PlainCaseSet(jsons) {
        var i :| 0 <= i < |jsons| && PlainCaseOf(jsons[i]).Some? && PlainCaseOf(jsons[i]).value == c;
        assert cases[i] in required;
      }
    }
  }

  /** The compact form of a consistent report is consistent. */
  lemma CompactConsistent(compact: Json, report: Json, required: set<Case>)
    requires IsCompact(compact, report, required) && Consistent(report, required)
    ensures Consistent(compact, required)
  {
    SameProbes(compact, report, required);
    var checks, summary := Probes(report, required), Get(report, "summary");
    var cases, passing, failing :|
      && ListsCases(cases, required) && Lists(passing, checks, true) && Lists(failing, checks, false)
      && compact == CompactReport(summary, cases, passing, failing);
    CompactParts(compact, summary, cases, passing, failing);
    CasesReadBack(cases, required);
    SummaryKept(summary, checks, required);
  }

  lemma SummaryKept(summary: Json, checks: Checks, cases: set<Case>)
    requires SummaryAgrees(summary, checks, cases)
    ensures SummaryAgrees(CompactSummary(summary), checks, cases)
  {
  }

  lemma SummaryTwice(summary: Json)
    ensures CompactSummary(CompactSummary(summary)) == CompactSummary(summary)
  {
  }

  lemma ListsUnique(p: seq<Probe>, q: seq<Probe>, checks: Checks, success: bool)
    requires Lists(p, checks, success) && Lists(q, checks, success)
    ensures p == q
  {
    AscendingUnique(p, q, Row);
  }

  /** Compacting a compact baseline changes nothing. */
  lemma CompactIdempotent(compact: Json, again: Json, report: Json, required: set<Case>)
    requires IsCompact(compact, report, required) && IsCompact(again, compact, required)
    ensures again == compact
  {
    SameProbes(compact, report, required);
    var checks, summary := Probes(report, required), Get(report, "summary");
    var cases, passing, failing :|
      && ListsCases(cases, required) && Lists(passing, checks, true) && Lists(failing, checks, false)
      && compact == CompactReport(summary, cases, passing, failing);
    var otherCases, otherPassing, otherFailing :|
      && ListsCases(otherCases, required) && Lists(otherPassing, checks, true) && Lists(otherFailing, checks, false)
      && again == CompactReport(Get(compact, "summary"), otherCases, otherPassing, otherFailing);
    CompactParts(compact, summary, cases, passing, failing);
    SummaryTwice(summary);
    AscendingUnique(cases, otherCases, CaseRow);
    ListsUnique(passing, otherPassing, checks, true);
    ListsUnique(failing, otherFailing, checks, false);
  }

  // ----- the gate -----

  lemma ListsRightUnique(v: Verdict, w: Verdict, report: Checks, baseline: Checks)
    requires ListsRight(v, report, baseline) && ListsRight(w, report, baseline)
    ensures v.(success := w.success) == w
  {
    AscendingUnique(v.known, w.known, Row);
    AscendingUnique(v.newFailures, w.newFailures, Row);
    AscendingUnique(v.missing, w.missing, Row);
    AscendingUnique(v.fixed, w.fixed, Row);
  }

  lemma SamePassing(compact: Json, report: Json, baseline: Json, required: set<Case>)
    requires IsCompact(compact, baseline, required) && Consistent(baseline, required)
    ensures Passes(report, compact, required) <==> Passes(report, baseline, required)
  {
    SameProbes(compact, baseline, required);
    CompactConsistent(compact, baseline, required);
    if Passes(report, compact, required) {
      PassesTransfer(report, compact, baseline, required);
    }
    if Passes(report, baseline, required) {
      PassesTransfer(report, baseline, compact, required);
    }
  }

  lemma PassesTransfer(report: Json, from: Json, to: Json, required: set<Case>)
    requires Passes(report, from, required) && Consistent(to, required)
             && Probes(from, required) == Probes(to, required)
    ensures Passes(report, to, required)
  {
  }

  /** Every candidate gets the same verdict against a report and against its compact form. */
  lemma CompactFaithful(compact: Json, report: Json, baseline: Json, v: Verdict, w: Verdict, required: set<Case>)
    requires IsCompact(compact, baseline, required) && Consistent(baseline, required)
    requires Judges(v, report, compact, required) && Judges(w, report, baseline, required)
    ensures v == w
  {
    SameProbes(compact, baseline, required);
    SamePassing(compact, report, baseline, required);
    ListsRightUnique(v, w, Probes(report, required), Probes(baseline, required));
  }

  lemma Reflexive(report: Json, required: set<Case>)
    ensures Passes(report, report, required) <==> Consistent(report, required)
  {
  }

  lemma PassesTransitive(a: Json, b: Json, c: Json, required: set<Case>)
    requires Passes(b, a, required) && Passes(c, b, required)
    ensures Passes(c, a, required)
  {
    var pa, pb, pc := Probes(a, required), Probes(b, required), Probes(c, required);
    forall id
      ensures !NewFailure(pc, pa, id) && !Missing(pc, pa, id)
    {
      assert !NewFailure(pb, pa, id) && !Missing(pb, pa, id);
      assert !NewFailure(pc, pb, id) && !Missing(pc, pb, id);
    }
  }

  /** Release `i + 1` was judged against the compact baseline of release `i`. */
  ghost predicate Released(releases: seq<Json>, compacts: seq<Json>, i: nat, required: set<Case>)
    requires |releases| == |compacts| + 1 && i < |compacts|
  {
    && Consistent(releases[i], required) && IsCompact(compacts[i], releases[i], required)
    && Passes(releases[i + 1], compacts[i], required)
  }

  ghost predicate History(releases: seq<Json>, compacts: seq<Json>, required: set<Case>) {
    |releases| == |compacts| + 1 && forall i :: 0 <= i < |compacts| ==> Released(releases, compacts, i, required)
  }

  lemma NextRelease(releases: seq<Json>, compacts: seq<Json>, i: nat, required: set<Case>)
    requires History(releases, compacts, required) && i < |compacts|
    ensures Passes(releases[i + 1], releases[i], required)
  {
    assert Released(releases, compacts, i, required);
    SamePassing(compacts[i], releases[i + 1], releases[i], required);
  }

  /** When every release is judged against the compact baseline of the one before, each release passes
      against the first. */
  lemma NoDrift(releases: seq<Json>, compacts: seq<Json>, required: set<Case>, n: nat)
    requires History(releases, compacts, required) && Consistent(releases[0], required) && n < |releases|
    ensures Passes(releases[n], releases[0], required)
  {
    var passes := iset report: Json, baseline: Json | Passes(report, baseline, required) :: (report, baseline);
    Reflexive(releases[0], required);
    forall a, b, c | (b, a) in passes && (c, b) in passes
      ensures (c, a) in passes
    {
      PassesTransitive(a, b, c, required);
    }
    forall i | 0 <= i < |releases| - 1
      ensures Linked(passes, releases, i)
    {
      NextRelease(releases, compacts, i, required);
    }
    ChainReaches(passes, releases, n);
  }

  // ----- what a verdict says of every single probe -----

  /** A probe of the baseline is still there, and fails only if it failed before; none fails anew. */
  predicate NoWorse(report: Checks, baseline: Checks, id: Probe) {
    && (id in baseline ==> id in report && (baseline[id] ==> report[id]))
    && (id in report && !report[id] ==> id in baseline && !baseline[id])
  }

  lemma PassesExactly(report: Json, baseline: Json, required: set<Case>)
    ensures Passes(report, baseline, required) <==>
      && Consistent(baseline, required) && Consistent(report, required)
      && forall id :: NoWorse(Probes(report, required), Probes(baseline, required), id)
  {
    var candidate, before := Probes(report, required), Probes(baseline, required);
    forall id
      ensures NoWorse(candidate, before, id) <==> !NewFailure(candidate, before, id) && !Missing(candidate, before, id)
    {
    }
  }

  /** Along any chain of re-baselined releases no probe is worse than in the first. */
  lemma NoneWorse(releases: seq<Json>, compacts: seq<Json>, required: set<Case>, n: nat, id: Probe)
    requires History(releases, compacts, required) && Consistent(releases[0], required) && n < |releases|
    ensures NoWorse(Probes(releases[n], required), Probes(releases[0], required), id)
  {
    NoDrift(releases, compacts, required, n);
    PassesExactly(releases[n], releases[0], required);
  }

  /** Every probe that failed in the baseline is in exactly one of three lists, by what became of it, and
      every probe that fails now is known or new, by whether it failed before. */
  lemma FailuresAccounted(v: Verdict, report: Json, baseline: Json, required: set<Case>, id: Probe)
    requires Judges(v, report, baseline, required)
    ensures var (now, before) := (Probes(report, required), Probes(baseline, required));
      && (id in before && !before[id] ==>
            && (id in v.missing <==> id !in now) && (id in v.fixed <==> id in now && now[id])
            && (id in v.known <==> id in now && !now[id]))
      && (id in now && !now[id] ==>
            && (id in v.known <==> id in before && !before[id]) && (id in v.newFailures <==> id !in v.known))
      && (id in before && before[id] ==> (id in v.missing <==> id !in now) && id !in v.fixed && id !in v.known)
      && (id !in before && (id !in now || now[id]) ==>
            id !in v.missing && id !in v.fixed && id !in v.known && id !in v.newFailures)
  {
  }

  /** The lists of a verdict are in order of mode, then transport and check. */
  lemma ListOrder(ids: seq<Probe>, i: nat, j: nat)
    requires Sorted(ids) && i < j < |ids|
    ensures var (a, b) := (ids[i], ids[j]);
      || StringBefore(a.mode, b.mode)
      || (a.mode == b.mode && StringBefore(a.transport, b.transport))
      || (a.mode == b.mode && a.transport == b.transport && StringBefore(a.checkId, b.checkId))
  {
    var a, b := Row(ids[i]), Row(ids[j]);
    var k := DifferSomewhere(a, b);
    BeforeMeans(a, b, k);
    assert k < 3;
    assert k > 0 ==> a[0] == b[0];
    assert k > 1 ==> a[1] == b[1];
  }
}
