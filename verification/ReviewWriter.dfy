/** The report that the review runner writes, and what its reader makes of it. */
module ReviewWriter {
  import opened Wrappers
  import opened Json
  import opened Review
  import opened ReviewTheorems

  datatype CheckResult = CheckResult(name: string, success: bool)

  datatype CaseResult = CaseResult(mode: string, transport: string, checks: seq<CheckResult>)

  // ----- the report of a run -----

  /** A case succeeds if it made checks and they all succeeded. */
  predicate Succeeds(c: CaseResult) {
    c.checks != [] && forall i :: 0 <= i < |c.checks| ==> c.checks[i].success
  }

  function CheckJson(r: CheckResult): Json { Object(map["name" := Str(r.name), "success" := Bool(r.success)]) }

  function CheckJsons(checks: seq<CheckResult>): (r: seq<Json>)
    ensures |r| == |checks| && forall i :: 0 <= i < |r| ==> r[i] == CheckJson(checks[i])
  {
    seq(|checks|, i requires 0 <= i < |checks| => CheckJson(checks[i]))
  }

  function CaseResultJson(c: CaseResult): Json {
    Object(map["mode" := Str(c.mode), "transport" := Str(c.transport), "success" := Bool(Succeeds(c)),
               "checks" := List(CheckJsons(c.checks))])
  }

  function CaseResultJsons(cases: seq<CaseResult>): (r: seq<Json>)
    ensures |r| == |cases| && forall i :: 0 <= i < |r| ==> r[i] == CaseResultJson(cases[i])
  {
    seq(|cases|, i requires 0 <= i < |cases| => CaseResultJson(cases[i]))
  }

  /** The checks of all cases. */
  function AllChecks(cases: seq<CaseResult>): seq<CheckResult> {
    if cases == [] then [] else AllChecks(cases[..|cases| - 1]) + cases[|cases| - 1].checks
  }

  function Failures(checks: seq<CheckResult>): seq<CheckResult> {
    if checks == [] then []
    else
      var last := checks[|checks| - 1];
      Failures(checks[..|checks| - 1]) + if last.success then [] else [last]
  }

  /** How many cases succeed. */
  function Successes(cases: seq<CaseResult>): nat {
    if cases == [] then 0
    else Successes(cases[..|cases| - 1]) + if Succeeds(cases[|cases| - 1]) then 1 else 0
  }

  predicate AllCasesSucceed(cases: seq<CaseResult>) {
    forall i :: 0 <= i < |cases| ==> Succeeds(cases[i])
  }

  function WriteSummary(cases: seq<CaseResult>): Json {
    var checks := AllChecks(cases);
    var failures := Failures(checks);
    Object(map["passed" := Num(|checks| - |failures|), "failed" := Num(|failures|), "total" := Num(|checks|),
               "casesPassed" := Num(Successes(cases)), "casesTotal" := Num(|cases|)])
  }

  function WriteReport(cases: seq<CaseResult>, modes: seq<string>): Json {
    Object(map[
      "schemaVersion" := Num(SCHEMA),
      "success" := Bool(cases != [] && AllCasesSucceed(cases)),
      "reviewer" := Str(REVIEWER),
      "modes" := List(Strings(modes)),
      "summary" := WriteSummary(cases),
      "cases" := List(CaseResultJsons(cases))])
  }

  // ----- what the reader asks of a run -----

  function Key(c: CaseResult): Case { (c.mode, c.transport) }

  predicate Named(checks: seq<CheckResult>) {
    forall i :: 0 <= i < |checks| ==> "review/" <= checks[i].name
  }

  predicate NamedOnce(checks: seq<CheckResult>) {
    forall i, j :: 0 <= i < j < |checks| ==> checks[i].name != checks[j].name
  }

  predicate OncePerCase(cases: seq<CaseResult>) {
    forall i, j :: 0 <= i < j < |cases| ==> Key(cases[i]) != Key(cases[j])
  }

  predicate Covering(cases: seq<CaseResult>, required: set<Case>) {
    && (forall i :: 0 <= i < |cases| ==> Key(cases[i]) in required)
    && forall c :: c in required ==> exists i :: 0 <= i < |cases| && Key(cases[i]) == c
  }

  /** Some check was made, and each has a name of its own. */
  predicate Probed(c: CaseResult) { c.checks != [] && Named(c.checks) && NamedOnce(c.checks) }

  predicate AllProbed(cases: seq<CaseResult>) { forall i :: 0 <= i < |cases| ==> Probed(cases[i]) }

  // ----- reading one case -----

  function SeenChecks(c: Case, checks: seq<CheckResult>): (r: seq<Seen>)
    ensures |r| == |checks|
    ensures forall i :: 0 <= i < |r| ==> r[i] == Seen(Probe(c.0, c.1, checks[i].name), checks[i].success)
  {
    seq(|checks|, i requires 0 <= i < |checks| => Seen(Probe(c.0, c.1, checks[i].name), checks[i].success))
  }

  lemma ReadCheck(c: Case, r: CheckResult)
    ensures CheckOf(c, CheckJson(r))
         == if "review/" <= r.name then Some(Seen(Probe(c.0, c.1, r.name), r.success)) else None
  {
  }

  lemma LastSeen(c: Case, checks: seq<CheckResult>)
    requires checks != []
    ensures var n := |checks| - 1;
      SeenChecks(c, checks)
      == SeenChecks(c, checks[..n]) + [Seen(Probe(c.0, c.1, checks[n].name), checks[n].success)]
  {
  }

  lemma {:induction false} ReadChecks(c: Case, checks: seq<CheckResult>)
    requires Named(checks)
    ensures SeenIn(c, CheckJsons(checks)) == SeenChecks(c, checks)
  {
    if checks != [] {
      var n := |checks| - 1;
      ReadChecks(c, checks[..n]);
      assert CheckJsons(checks)[..n] == CheckJsons(checks[..n]);
      ReadCheck(c, checks[n]);
      LastSeen(c, checks);
    }
  }

  lemma ReadCase(c: CaseResult, required: set<Case>)
    ensures CaseOf(CaseResultJson(c), required) == if Key(c) in required then Some(Key(c)) else None
    ensures ChecksIn(CaseResultJson(c)) == CheckJsons(c.checks)
    ensures Get(CaseResultJson(c), "success") == Bool(Succeeds(c))
  {
  }

  lemma ReadOutcomes(c: Case, checks: seq<CheckResult>)
    ensures (forall i :: 0 <= i < |checks| ==> CheckOf(c, CheckJsons(checks)[i]).Some?) <==> Named(checks)
    ensures Named(checks) ==>
      (AllSucceed(c, CheckJsons(checks)) <==> forall i :: 0 <= i < |checks| ==> checks[i].success)
  {
    forall i | 0 <= i < |checks|
      ensures CheckOf(c, CheckJsons(checks)[i])
           == if "review/" <= checks[i].name then Some(Seen(Probe(c.0, c.1, checks[i].name), checks[i].success))
              else None
    {
      ReadCheck(c, checks[i]);
    }
  }

  lemma ProperMeans(c: CaseResult, required: set<Case>)
    ensures ProperCase(CaseResultJson(c), required) <==> Key(c) in required && c.checks != [] && Named(c.checks)
  {
    ReadCase(c, required);
    ReadOutcomes(Key(c), c.checks);
  }

  // ----- reading all cases -----

  function Keys(cases: seq<CaseResult>): set<Case> { set i | 0 <= i < |cases| :: Key(cases[i]) }

  function Flat(cases: seq<CaseResult>): seq<Seen> {
    if cases == [] then []
    else
      var last := cases[|cases| - 1];
      Flat(cases[..|cases| - 1]) + SeenChecks(Key(last), last.checks)
  }

  predicate Readable(cases: seq<CaseResult>, required: set<Case>) {
    && OncePerCase(cases)
    && forall i :: 0 <= i < |cases| ==> Key(cases[i]) in required && cases[i].checks != [] && Named(cases[i].checks)
  }

  lemma CasesProper(cases: seq<CaseResult>, required: set<Case>)
    ensures ProperCases(CaseResultJsons(cases), required) <==> Readable(cases, required)
  {
    forall i | 0 <= i < |cases|
      ensures ProperCase(CaseResultJsons(cases)[i], required)
         <==> Key(cases[i]) in required && cases[i].checks != [] && Named(cases[i].checks)
      ensures CaseOf(CaseResultJsons(cases)[i], required)
           == if Key(cases[i]) in required then Some(Key(cases[i])) else None
    {
      ProperMeans(cases[i], required);
      ReadCase(cases[i], required);
    }
  }

  lemma KeysRead(cases: seq<CaseResult>, required: set<Case>)
    requires forall i :: 0 <= i < |cases| ==> Key(cases[i]) in required
    ensures CaseSet(CaseResultJsons(cases), required) == Keys(cases)
  {
    var jsons := CaseResultJsons(cases);
    forall i | 0 <= i < |cases|
      ensures CaseOf(jsons[i], required) == Some(Key(cases[i]))
    {
      ReadCase(cases[i], required);
    }
    forall c
      ensures c in CaseSet(jsons, required) <==> c in Keys(cases)
    {
      if c in Keys(cases) {
        var i :| 0 <= i < |cases| && Key(cases[i]) == c;
        assert CaseOf(jsons[i], required) == Some(c);
      }
    }
  }

  lemma {:induction false} CasesRead(cases: seq<CaseResult>, required: set<Case>)
    requires Readable(cases, required)
    ensures SeenInCases(CaseResultJsons(cases), required) == Flat(cases)
  {
    if cases != [] {
      var n := |cases| - 1;
      var front, last := cases[..n], cases[n];
      CasesRead(front, required);
      assert CaseResultJsons(cases)[..n] == CaseResultJsons(front);
      KeysRead(front, required);
      ReadCase(last, required);
      ReadChecks(Key(last), last.checks);
      assert Key(last) !in Keys(front);
    }
  }

  // ----- no probe twice -----

  lemma {:induction false} FlatKeys(cases: seq<CaseResult>, i: nat)
    requires i < |Flat(cases)|
    ensures (Flat(cases)[i].id.mode, Flat(cases)[i].id.transport) in Keys(cases)
  {
    var n := |cases| - 1;
    var front := cases[..n];
    if i < |Flat(front)| {
      FlatKeys(front, i);
      var k :| 0 <= k < n && Key(front[k]) == (Flat(cases)[i].id.mode, Flat(cases)[i].id.transport);
      assert Key(cases[k]) == Key(front[k]);
    } else {
      assert Key(cases[n]) in Keys(cases);
    }
  }

  lemma OnceJoin(a: seq<Seen>, b: seq<Seen>)
    requires forall i, j :: 0 <= i < |a| && 0 <= j < |b| ==> a[i].id != b[j].id
    ensures SeenOnce(a + b) <==> SeenOnce(a) && SeenOnce(b)
  {
    if SeenOnce(a + b) {
      assert forall i :: 0 <= i < |a| ==> a[i] == (a + b)[i];
      assert forall j :: 0 <= j < |b| ==> b[j] == (a + b)[|a| + j];
    }
  }

  lemma OnceInCase(c: Case, checks: seq<CheckResult>)
    ensures SeenOnce(SeenChecks(c, checks)) <==> NamedOnce(checks)
  {
    var seen := SeenChecks(c, checks);
    forall i, j | 0 <= i < j < |checks|
      ensures seen[i].id == seen[j].id <==> checks[i].name == checks[j].name
    {
    }
  }

  lemma {:induction false} FlatOnce(cases: seq<CaseResult>)
    requires OncePerCase(cases)
    ensures SeenOnce(Flat(cases)) <==> forall i :: 0 <= i < |cases| ==> NamedOnce(cases[i].checks)
  {
    if cases != [] {
      var n := |cases| - 1;
      var front, last := cases[..n], cases[n];
      FlatOnce(front);
      OnceInCase(Key(last), last.checks);
      var a, b := Flat(front), SeenChecks(Key(last), last.checks);
      forall i, j | 0 <= i < |a| && 0 <= j < |b|
        ensures a[i].id != b[j].id
      {
        FlatKeys(front, i);
      }
      OnceJoin(a, b);
      assert forall i :: 0 <= i < n ==> front[i] == cases[i];
    }
  }

  // ----- the totals -----

  /** How many of the observations succeed. */
  function Hits(seen: seq<Seen>): nat {
    if seen == [] then 0 else Hits(seen[..|seen| - 1]) + if seen[|seen| - 1].success then 1 else 0
  }

  lemma {:induction false} CountProbes(seen: seq<Seen>)
    requires SeenOnce(seen)
    ensures |PutAll(map[], seen)| == |seen| && |Passing(PutAll(map[], seen))| == Hits(seen)
  {
    if seen != [] {
      var n := |seen| - 1;
      var last := seen[n];
      CountProbes(seen[..n]);
      var before, after := PutAll(map[], seen[..n]), PutAll(map[], seen);
      PutAllKeys(map[], seen[..n], last.id);
      assert last.id !in before && after == before[last.id := last.success];
      assert after.Keys == before.Keys + {last.id};
      assert Passing(after) == if last.success then Passing(before) + {last.id} else Passing(before);
    }
  }

  lemma {:induction false} HitsJoin(a: seq<Seen>, b: seq<Seen>)
    ensures Hits(a + b) == Hits(a) + Hits(b)
  {
    if b == [] {
      assert a + b == a;
    } else {
      HitsJoin(a, b[..|b| - 1]);
      assert (a + b)[..|a + b| - 1] == a + b[..|b| - 1];
    }
  }

  lemma {:induction false} FailuresJoin(a: seq<CheckResult>, b: seq<CheckResult>)
    ensures |Failures(a + b)| == |Failures(a)| + |Failures(b)|
  {
    if b == [] {
      assert a + b == a;
    } else {
      FailuresJoin(a, b[..|b| - 1]);
      assert (a + b)[..|a + b| - 1] == a + b[..|b| - 1];
    }
  }

  lemma {:induction false} CountCase(c: Case, checks: seq<CheckResult>)
    ensures Hits(SeenChecks(c, checks)) == |checks| - |Failures(checks)|
  {
    if checks != [] {
      var n := |checks| - 1;
      CountCase(c, checks[..n]);
      assert SeenChecks(c, checks)[..n] == SeenChecks(c, checks[..n]);
    }
  }

  lemma {:induction false} CountAll(cases: seq<CaseResult>)
    ensures |Flat(cases)| == |AllChecks(cases)|
    ensures Hits(Flat(cases)) == |AllChecks(cases)| - |Failures(AllChecks(cases))|
  {
    if cases != [] {
      var n := |cases| - 1;
      var front, last := cases[..n], cases[n];
      CountAll(front);
      HitsJoin(Flat(front), SeenChecks(Key(last), last.checks));
      CountCase(Key(last), last.checks);
      FailuresJoin(AllChecks(front), last.checks);
    }
  }

  // ----- the cases that passed -----

  lemma {:induction false} FlatMember(cases: seq<CaseResult>, s: Seen)
    ensures s in Flat(cases) <==> exists i :: 0 <= i < |cases| && s in SeenChecks(Key(cases[i]), cases[i].checks)
  {
    if cases != [] {
      var n := |cases| - 1;
      FlatMember(cases[..n], s);
      assert forall i :: 0 <= i < n ==> cases[..n][i] == cases[i];
    }
  }

  predicate Made(checks: seq<CheckResult>, r: CheckResult) { exists k :: 0 <= k < |checks| && checks[k] == r }

  lemma CaseSeen(c: Case, checks: seq<CheckResult>, id: Probe, success: bool)
    requires (id.mode, id.transport) == c
    ensures Seen(id, success) in SeenChecks(c, checks) <==> Made(checks, CheckResult(id.checkId, success))
  {
    var seen := SeenChecks(c, checks);
    if Seen(id, success) in seen {
      var k :| 0 <= k < |seen| && seen[k] == Seen(id, success);
      assert checks[k] == CheckResult(id.checkId, success);
    }
    if k :| 0 <= k < |checks| && checks[k] == CheckResult(id.checkId, success) {
      assert seen[k] == Seen(id, success);
    }
  }

  predicate ReadAs(checks: Checks, id: Probe, success: bool) { id in checks && checks[id] == success }

  /** A probe was read with an outcome exactly if the case it belongs to made that check. */
  lemma {:induction false} ProbeOf(cases: seq<CaseResult>, id: Probe, success: bool, i: nat)
    requires OncePerCase(cases) && SeenOnce(Flat(cases)) && i < |cases| && (id.mode, id.transport) == Key(cases[i])
    ensures ReadAs(PutAll(map[], Flat(cases)), id, success)
       <==> Made(cases[i].checks, CheckResult(id.checkId, success))
  {
    var seen := Flat(cases);
    FlatMember(cases, Seen(id, success));
    CaseSeen(Key(cases[i]), cases[i].checks, id, success);
    PutAllKeys(map[], seen, id);
    if id in PutAll(map[], seen) {
      var p :| 0 <= p < |seen| && seen[p].id == id;
      PutAllValue(seen, p);
    }
    if Seen(id, success) in seen {
      var p :| 0 <= p < |seen| && seen[p] == Seen(id, success);
      PutAllValue(seen, p);
      var c :| 0 <= c < |cases| && Seen(id, success) in SeenChecks(Key(cases[c]), cases[c].checks);
      assert c == i;
    }
  }

  lemma {:induction false} CasePassedMeans(cases: seq<CaseResult>, i: nat)
    requires OncePerCase(cases) && SeenOnce(Flat(cases)) && i < |cases| && cases[i].checks != []
    ensures CasePassed(PutAll(map[], Flat(cases)), Key(cases[i])) <==> Succeeds(cases[i])
  {
    var checks, own, key := PutAll(map[], Flat(cases)), cases[i].checks, Key(cases[i]);
    forall k | 0 <= k < |own|
      ensures ReadAs(checks, Probe(key.0, key.1, own[k].name), own[k].success)
    {
      ProbeOf(cases, Probe(key.0, key.1, own[k].name), own[k].success, i);
    }
    var first := Probe(key.0, key.1, own[0].name);
    assert ReadAs(checks, first, own[0].success) && (first.mode, first.transport) == key;
    if Succeeds(cases[i]) {
      forall id | id in checks && (id.mode, id.transport) == key
        ensures checks[id]
      {
        ProbeOf(cases, id, checks[id], i);
      }
    }
    if CasePassed(checks, key) {
      forall k | 0 <= k < |own|
        ensures own[k].success
      {
        var id := Probe(key.0, key.1, own[k].name);
        assert ReadAs(checks, id, own[k].success) && (id.mode, id.transport) == key;
      }
    }
  }

  /** The keys of the cases that succeeded. */
  function Won(cases: seq<CaseResult>): set<Case> { set i | 0 <= i < |cases| && Succeeds(cases[i]) :: Key(cases[i]) }

  lemma {:induction false} KeysSnoc(cases: seq<CaseResult>)
    requires cases != [] && OncePerCase(cases)
    ensures var n := |cases| - 1;
      Keys(cases) == Keys(cases[..n]) + {Key(cases[n])} && Key(cases[n]) !in Keys(cases[..n])
  {
    var n := |cases| - 1;
    var front := cases[..n];
    forall c
      ensures c in Keys(cases) <==> c in Keys(front) || c == Key(cases[n])
    {
      if c in Keys(front) {
        var i :| 0 <= i < n && Key(front[i]) == c;
        assert Key(cases[i]) == c;
      }
      if c in Keys(cases) && c != Key(cases[n]) {
        var i :| 0 <= i < |cases| && Key(cases[i]) == c;
        assert Key(front[i]) == c;
      }
    }
  }

  lemma {:induction false} WonSnoc(cases: seq<CaseResult>)
    requires cases != [] && OncePerCase(cases)
    ensures var n := |cases| - 1;
      && Won(cases) == (if Succeeds(cases[n]) then Won(cases[..n]) + {Key(cases[n])} else Won(cases[..n]))
      && Key(cases[n]) !in Won(cases[..n])
  {
    var n := |cases| - 1;
    var front := cases[..n];
    forall c
      ensures c in Won(cases) <==> c in Won(front) || (Succeeds(cases[n]) && c == Key(cases[n]))
    {
      if c in Won(front) {
        var i :| 0 <= i < n && Succeeds(front[i]) && Key(front[i]) == c;
        assert Succeeds(cases[i]) && Key(cases[i]) == c;
      }
      if c in Won(cases) {
        var i :| 0 <= i < |cases| && Succeeds(cases[i]) && Key(cases[i]) == c;
        assert i < n ==> Succeeds(front[i]) && Key(front[i]) == c;
      }
    }
  }

  lemma {:induction false} CountCases(cases: seq<CaseResult>)
    requires OncePerCase(cases)
    ensures |Keys(cases)| == |cases| && |Won(cases)| == Successes(cases)
  {
    if cases != [] {
      var n := |cases| - 1;
      var front, last := cases[..n], cases[n];
      CountCases(front);
      KeysSnoc(cases);
      WonSnoc(cases);
    }
  }

  lemma {:induction false} PassedMeans(cases: seq<CaseResult>)
    requires OncePerCase(cases) && SeenOnce(Flat(cases))
    requires forall i :: 0 <= i < |cases| ==> cases[i].checks != []
    ensures PassedCases(PutAll(map[], Flat(cases)), Keys(cases)) == Won(cases)
  {
    var checks := PutAll(map[], Flat(cases));
    forall i | 0 <= i < |cases|
      ensures CasePassed(checks, Key(cases[i])) <==> Succeeds(cases[i])
    {
      CasePassedMeans(cases, i);
    }
    forall c
      ensures c in PassedCases(checks, Keys(cases)) <==> c in Won(cases)
    {
      if c in Keys(cases) {
        var i :| 0 <= i < |cases| && Key(cases[i]) == c;
        assert CasePassed(checks, c) <==> Succeeds(cases[i]);
      }
    }
  }

  // ----- the report is consistent -----

  lemma {:induction false} NoFailures(checks: seq<CheckResult>)
    ensures Failures(checks) == [] <==> forall i :: 0 <= i < |checks| ==> checks[i].success
  {
    if checks != [] {
      NoFailures(checks[..|checks| - 1]);
      assert forall i :: 0 <= i < |checks| - 1 ==> checks[..|checks| - 1][i] == checks[i];
    }
  }

  lemma {:induction false} AllSucceedMeans(cases: seq<CaseResult>)
    requires forall i :: 0 <= i < |cases| ==> cases[i].checks != []
    ensures AllCasesSucceed(cases) <==> Failures(AllChecks(cases)) == []
  {
    if cases != [] {
      var n := |cases| - 1;
      AllSucceedMeans(cases[..n]);
      assert forall i :: 0 <= i < n ==> cases[..n][i] == cases[i];
      FailuresJoin(AllChecks(cases[..n]), cases[n].checks);
      NoFailures(cases[n].checks);
    }
  }

  /** `checks` and `keys` are of the sizes that the runner counted. */
  predicate Counted(cases: seq<CaseResult>, checks: Checks, keys: set<Case>) {
    && |checks| == |AllChecks(cases)| && |Passing(checks)| == |AllChecks(cases)| - |Failures(AllChecks(cases))|
    && |PassedCases(checks, keys)| == Successes(cases) && |keys| == |cases|
  }

  lemma SummaryRight(cases: seq<CaseResult>, checks: Checks, keys: set<Case>)
    requires Counted(cases, checks, keys)
    ensures SummaryAgrees(WriteSummary(cases), checks, keys)
  {
  }

  lemma {:induction false} CountRight(cases: seq<CaseResult>)
    requires OncePerCase(cases) && SeenOnce(Flat(cases))
    requires forall i :: 0 <= i < |cases| ==> cases[i].checks != []
    ensures Counted(cases, PutAll(map[], Flat(cases)), Keys(cases))
  {
    CountProbes(Flat(cases));
    CountAll(cases);
    CountCases(cases);
    PassedMeans(cases);
  }

  /** The totals that the runner counts over its cases are those that the reader counts over the probes. */
  lemma {:induction false} TotalsMatch(cases: seq<CaseResult>, modes: seq<string>, checks: Checks, keys: set<Case>)
    requires Counted(cases, checks, keys) && forall i :: 0 <= i < |cases| ==> cases[i].checks != []
    ensures TotalsAgree(WriteReport(cases, modes), checks, keys)
  {
    SummaryRight(cases, checks, keys);
    AllSucceedMeans(cases);
    assert keys == {} <==> |keys| == 0;
    WrittenTotals(cases, modes);
  }

  lemma WrittenTotals(cases: seq<CaseResult>, modes: seq<string>)
    ensures Get(WriteReport(cases, modes), "summary") == WriteSummary(cases)
    ensures Get(WriteReport(cases, modes), "success") == Bool(cases != [] && AllCasesSucceed(cases))
  {
  }

  lemma StringsSame(a: seq<string>, b: seq<string>)
    ensures Strings(a) == Strings(b) <==> a == b
  {
    if Strings(a) == Strings(b) {
      assert forall i :: 0 <= i < |a| ==> Strings(a)[i] == Str(a[i]) && Strings(b)[i] == Str(b[i]);
    }
  }

  lemma WrittenHeader(cases: seq<CaseResult>, modes: seq<string>)
    ensures var report := WriteReport(cases, modes);
      && IsFull(report) && Get(report, "cases") == List(CaseResultJsons(cases)) && Get(report, "success").Bool?
      && (Header(report) <==> modes == MODES)
  {
    StringsSame(modes, MODES);
  }

  lemma CoveringMeans(cases: seq<CaseResult>, required: set<Case>)
    ensures Covering(cases, required) <==> Keys(cases) == required
  {
    if Covering(cases, required) {
      forall c
        ensures c in Keys(cases) <==> c in required
      {
      }
    }
    if Keys(cases) == required {
      forall i | 0 <= i < |cases|
        ensures Key(cases[i]) in required
      {
        assert Key(cases[i]) in Keys(cases);
      }
    }
  }

  lemma {:induction false} WrittenRead(cases: seq<CaseResult>, modes: seq<string>, required: set<Case>)
    requires Readable(cases, required)
    ensures Observations(WriteReport(cases, modes), required) == Flat(cases)
    ensures ObservedCases(WriteReport(cases, modes), required) == Keys(cases)
  {
    WrittenHeader(cases, modes);
    CasesRead(cases, required);
    KeysRead(cases, required);
  }

  lemma {:induction false} WrittenAgrees(cases: seq<CaseResult>, modes: seq<string>)
    requires OncePerCase(cases) && SeenOnce(Flat(cases))
    requires forall i :: 0 <= i < |cases| ==> cases[i].checks != []
    ensures TotalsAgree(WriteReport(cases, modes), PutAll(map[], Flat(cases)), Keys(cases))
  {
    CountRight(cases);
    TotalsMatch(cases, modes, PutAll(map[], Flat(cases)), Keys(cases));
  }

  lemma WrittenBody(cases: seq<CaseResult>, modes: seq<string>, required: set<Case>)
    ensures ProperBody(WriteReport(cases, modes), required) <==> Readable(cases, required)
  {
    WrittenHeader(cases, modes);
    CasesProper(cases, required);
  }

  lemma {:induction false} ReadableConsistent(cases: seq<CaseResult>, modes: seq<string>, required: set<Case>)
    requires Readable(cases, required)
    ensures Consistent(WriteReport(cases, modes), required)
       <==> modes == MODES && SeenOnce(Flat(cases)) && Keys(cases) == required
  {
    WrittenHeader(cases, modes);
    WrittenBody(cases, modes, required);
    WrittenRead(cases, modes, required);
    if SeenOnce(Flat(cases)) {
      WrittenAgrees(cases, modes);
    }
  }

  /** The report of a run is accepted as consistent exactly when it ran the three modes, ran every required
      case once and no other, and every case made checks with names of their own. Its totals are right
      whatever the outcomes were. */
  lemma {:induction false} WrittenConsistent(cases: seq<CaseResult>, modes: seq<string>, required: set<Case>)
    ensures Consistent(WriteReport(cases, modes), required) <==>
      modes == MODES && OncePerCase(cases) && Covering(cases, required) && AllProbed(cases)
  {
    WrittenBody(cases, modes, required);
    CoveringMeans(cases, required);
    if Readable(cases, required) {
      ReadableConsistent(cases, modes, required);
      FlatOnce(cases);
    } else {
      assert !Consistent(WriteReport(cases, modes), required);
    }
  }

  /** The reader finds in a consistent report of a run exactly the checks that its cases made. */
  lemma {:induction false} WrittenProbes(cases: seq<CaseResult>, modes: seq<string>, required: set<Case>, id: Probe,
                                         success: bool)
    requires Consistent(WriteReport(cases, modes), required)
    ensures ReadAs(Probes(WriteReport(cases, modes), required), id, success) <==>
      exists i :: 0 <= i < |cases| && Key(cases[i]) == (id.mode, id.transport)
                  && Made(cases[i].checks, CheckResult(id.checkId, success))
  {
    WrittenBody(cases, modes, required);
    WrittenRead(cases, modes, required);
    ReadableConsistent(cases, modes, required);
    if ReadAs(Probes(WriteReport(cases, modes), required), id, success) {
      PutAllKeys(map[], Flat(cases), id);
      var p :| 0 <= p < |Flat(cases)| && Flat(cases)[p].id == id;
      FlatKeys(cases, p);
      var i :| 0 <= i < |cases| && Key(cases[i]) == (id.mode, id.transport);
      ProbeOf(cases, id, success, i);
    }
    if i :| 0 <= i < |cases| && Key(cases[i]) == (id.mode, id.transport)
            && Made(cases[i].checks, CheckResult(id.checkId, success)) {
      ProbeOf(cases, id, success, i);
    }
  }
}
