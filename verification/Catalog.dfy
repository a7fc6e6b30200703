/** Collecting the model lists of several providers from a server that only lists the models of its
    current provider. */
module Catalog {
  import opened Wrappers
  import opened Keyed

  /** How a configuration write ended. A write can take effect although its reply is lost. */
  datatype Write = Applied | Refused | ReplyLost

  /** How the requests for one provider end. */
  datatype Outcome = Outcome(write: Write, listed: bool)

  /** A model list is known by the provider whose models it holds. */
  type Listed = Option<Id>

  datatype Progress = Progress(server: Option<Id>, switched: bool, entries: map<Id, Listed>)

  function AfterWrite(server: Option<Id>, value: Option<Id>, w: Write): Option<Id> {
    if w.Refused? then server else value
  }

  function Step(p: Progress, id: Id, configured: Option<Id>, o: Outcome): Progress {
    if configured == Some(id) then (if o.listed then p.(entries := p.entries[id := p.server]) else p)
    else
      var server := AfterWrite(p.server, Some(id), o.write);
      if !o.write.Applied? then p.(server := server)
      else Progress(server, true, if o.listed then p.entries[id := server] else p.entries)
  }

  function Run(p: Progress, ids: seq<Id>, configured: Option<Id>, outcomes: seq<Outcome>): Progress
    requires |outcomes| == |ids|
  {
    if ids == [] then p
    else
      var n := |ids| - 1;
      Step(Run(p, ids[..n], configured, outcomes[..n]), ids[n], configured, outcomes[n])
  }

  function Start(server: Option<Id>): Progress { Progress(server, false, map[]) }

  /** The server, which knows one current provider. */
  class Server {
    var provider: Option<Id>

    method BatchWrite(value: Option<Id>, outcome: Write) returns (ok: bool)
      modifies this
      ensures provider == AfterWrite(old(provider), value, outcome) && ok == outcome.Applied?
    {
      if !outcome.Refused? {
        provider := value;
      }
      ok := outcome.Applied?;
    }
  }

  /** Visit the providers one after the other, then write the configured provider back. */
  method CollectProviderModels(ids: seq<Id>, configured: Option<Id>, server: Server, outcomes: seq<Outcome>,
                               restore: Write,
                               busy: set<Id>, cached: map<Id, Listed>)
    returns (models: map<Id, Listed>, stillBusy: set<Id>)
    requires |outcomes| == |ids|
    modifies server
    ensures var last := Run(Start(old(server.provider)), ids, configured, outcomes);
      && models == cached + last.entries
      && server.provider == FinalServer(last, configured, restore)
    ensures forall id :: Updated(cached, models, ids, configured, outcomes, id)
    ensures ids != [] ==> stillBusy == busy - set id | id in ids
    ensures ids == [] ==> stillBusy == busy
  {
    models, stillBusy := cached, busy;
    ghost var p := Start(server.provider);
    forall id
      ensures Updated(cached, cached + Run(p, ids, configured, outcomes).entries, ids, configured, outcomes, id)
    {
      StoredExactly(server.provider, ids, configured, outcomes, id);
    }
    if ids == [] {
      assert cached + map[] == cached;
      return;
    }
    stillBusy := stillBusy + set id | id in ids;
    var entries: map<Id, Listed> := map[];
    var switched := false;
    for n := 0 to |ids|
      invariant Progress(server.provider, switched, entries) == Run(p, ids[..n], configured, outcomes[..n])
    {
      assert ids[..n + 1][..n] == ids[..n] && outcomes[..n + 1][..n] == outcomes[..n];
      var id := ids[n];
      if configured != Some(id) {
        var ok := server.BatchWrite(Some(id), outcomes[n].write);
        if !ok {
          continue;
        }
        switched := true;
      }
      if outcomes[n].listed {
        entries := entries[id := server.provider];
      }
    }
    assert ids[..|ids|] == ids && outcomes[..|ids|] == outcomes;
    if switched {
      var _ := server.BatchWrite(configured, restore);
    }
    stillBusy := stillBusy - set id | id in ids;
    models := cached + entries;
  }

  // ----- when the lists are right -----

  /** Every stored list is that of its own provider. */
  predicate Right(entries: map<Id, Listed>) {
    forall id :: id in entries ==> entries[id] == Some(id)
  }

  /** The configured provider is not listed, or it is current at the start and no other comes before it. */
  predicate ConfiguredFirst(ids: seq<Id>, configured: Option<Id>, server: Option<Id>) {
    forall j :: 0 <= j < |ids| && Some(ids[j]) == configured ==>
      server == configured && forall i :: 0 <= i < j ==> ids[i] == ids[j]
  }

  lemma {:induction false} RunRight(server: Option<Id>, ids: seq<Id>, configured: Option<Id>, outcomes: seq<Outcome>)
    requires |outcomes| == |ids| && ConfiguredFirst(ids, configured, server)
    ensures var p := Run(Start(server), ids, configured, outcomes);
      Right(p.entries) && ((forall i :: 0 <= i < |ids| ==> Some(ids[i]) == configured) ==> p.server == server)
  {
    if ids != [] {
      var n := |ids| - 1;
      assert ConfiguredFirst(ids[..n], configured, server);
      RunRight(server, ids[..n], configured, outcomes[..n]);
      if Some(ids[n]) == configured {
        assert forall i :: 0 <= i < n ==> ids[..n][i] == ids[n];
      }
    }
  }

  /** All requests succeed up to a position; after it no list is obtained. */
  function OkUntil(length: nat, j: nat): (r: seq<Outcome>)
    ensures |r| == length && forall i :: 0 <= i < length ==> r[i] == Outcome(Applied, i <= j)
  {
    seq(length, i => Outcome(Applied, i <= j))
  }

  /** After a run in which all succeeds, the server is where the last switch left it. */
  lemma {:induction false} WrongList(server: Option<Id>, ids: seq<Id>, configured: Option<Id>, j: nat, n: nat)
    requires j < n <= |ids| && Some(ids[j]) == configured
    requires server != configured || (j > 0 && ids[j - 1] != ids[j])
    requires j == 0 || Some(ids[j - 1]) != configured
    ensures var p := Run(Start(server), ids[..n], configured, OkUntil(|ids|, j)[..n]);
      ids[j] in p.entries && p.entries[ids[j]] == if j == 0 then server else Some(ids[j - 1])
    decreases n
  {
    var outcomes := OkUntil(|ids|, j);
    assert ids[..n][..n - 1] == ids[..n - 1] && outcomes[..n][..n - 1] == outcomes[..n - 1];
    if n - 1 > j {
      WrongList(server, ids, configured, j, n - 1);
    } else if j > 0 {
      assert ids[..j][..j - 1] == ids[..j - 1] && outcomes[..j][..j - 1] == outcomes[..j - 1];
      assert Run(Start(server), ids[..j], configured, outcomes[..j]).server == Some(ids[j - 1]);
    }
  }

  /** The lists are right whichever requests fail, exactly when the configured provider comes first. */
  lemma CatalogRight(server: Option<Id>, ids: seq<Id>, configured: Option<Id>)
    ensures ConfiguredFirst(ids, configured, server) <==>
      forall outcomes: seq<Outcome> ::
        |outcomes| == |ids| ==> Right(Run(Start(server), ids, configured, outcomes).entries)
  {
    if ConfiguredFirst(ids, configured, server) {
      forall outcomes: seq<Outcome> | |outcomes| == |ids|
        ensures Right(Run(Start(server), ids, configured, outcomes).entries)
      {
        RunRight(server, ids, configured, outcomes);
      }
    } else {
      var j := FirstTrouble(server, ids, configured);
      WrongList(server, ids, configured, j, |ids|);
      var outcomes := OkUntil(|ids|, j);
      assert ids[..|ids|] == ids && outcomes[..|ids|] == outcomes;
      assert !Right(Run(Start(server), ids, configured, outcomes).entries);
    }
  }

  lemma {:induction false} FirstTrouble(server: Option<Id>, ids: seq<Id>, configured: Option<Id>) returns (j: nat)
    requires !ConfiguredFirst(ids, configured, server)
    ensures j < |ids| && Some(ids[j]) == configured
    ensures (server != configured || (j > 0 && ids[j - 1] != ids[j])) && (j == 0 || Some(ids[j - 1]) != configured)
  {
    var n := |ids| - 1;
    if !ConfiguredFirst(ids[..n], configured, server) {
      j := FirstTrouble(server, ids[..n], configured);
    } else {
      j := n;
      assert forall i :: 0 <= i < n ==> ids[..n][i] == ids[i];
    }
  }

  // ----- which lists are stored -----

  /** At position `i` a list is obtained for the provider there. */
  predicate Obtains(ids: seq<Id>, configured: Option<Id>, outcomes: seq<Outcome>, i: nat)
    requires |outcomes| == |ids|
  {
    i < |ids| && outcomes[i].listed && (Some(ids[i]) == configured || outcomes[i].write.Applied?)
  }

  /** A list is obtained for a provider. */
  predicate Stores(ids: seq<Id>, configured: Option<Id>, outcomes: seq<Outcome>, id: Id)
    requires |outcomes| == |ids|
  {
    exists i :: 0 <= i < |ids| && ids[i] == id && Obtains(ids, configured, outcomes, i)
  }

  lemma StoresStep(ids: seq<Id>, configured: Option<Id>, outcomes: seq<Outcome>, id: Id)
    requires |outcomes| == |ids| && ids != []
    ensures var n := |ids| - 1;
      Stores(ids, configured, outcomes, id) <==>
        || Stores(ids[..n], configured, outcomes[..n], id)
        || (ids[n] == id && Obtains(ids, configured, outcomes, n))
  {
    var n := |ids| - 1;
    var front, before := ids[..n], outcomes[..n];
    assert forall i :: 0 <= i < n ==> front[i] == ids[i] && before[i] == outcomes[i];
    if Stores(front, configured, before, id) {
      var i :| 0 <= i < |front| && front[i] == id && Obtains(front, configured, before, i);
      assert Obtains(ids, configured, outcomes, i);
    }
    if i :| 0 <= i < |ids| && ids[i] == id && Obtains(ids, configured, outcomes, i) && i < n {
      assert Obtains(front, configured, before, i);
    }
  }

  predicate StoredRight(entries: map<Id, Listed>, ids: seq<Id>, configured: Option<Id>, outcomes: seq<Outcome>, id: Id)
    requires |outcomes| == |ids|
  {
    && (id in entries <==> Stores(ids, configured, outcomes, id))
    && (id in entries && Some(id) != configured ==> entries[id] == Some(id))
  }

  /** The cache holds what it held, except for the providers for which a list is obtained. */
  predicate Updated(cached: map<Id, Listed>, models: map<Id, Listed>, ids: seq<Id>, configured: Option<Id>,
                    outcomes: seq<Outcome>, id: Id)
    requires |outcomes| == |ids|
  {
    if Stores(ids, configured, outcomes, id) then id in models && (Some(id) != configured ==> models[id] == Some(id))
    else (id in models <==> id in cached) && (id in models ==> models[id] == cached[id])
  }

  /** Exactly the providers for which a list is obtained have one stored, and another provider than the
      configured one always has its own. */
  lemma {:induction false} StoredExactly(server: Option<Id>, ids: seq<Id>, configured: Option<Id>,
                                         outcomes: seq<Outcome>, id: Id)
    requires |outcomes| == |ids|
    ensures StoredRight(Run(Start(server), ids, configured, outcomes).entries, ids, configured, outcomes, id)
  {
    if ids != [] {
      var n := |ids| - 1;
      StoredExactly(server, ids[..n], configured, outcomes[..n], id);
      StoresStep(ids, configured, outcomes, id);
    }
  }

  /** At position `m` the server is moved to another provider. */
  predicate Moves(ids: seq<Id>, configured: Option<Id>, outcomes: seq<Outcome>, m: nat)
    requires |outcomes| == |ids|
  {
    m < |ids| && Some(ids[m]) != configured && !outcomes[m].write.Refused?
  }

  /** The server stands where the last move before position `j` took it, or where it began. */
  predicate StandsAt(server: Option<Id>, ids: seq<Id>, configured: Option<Id>, outcomes: seq<Outcome>, j: nat,
                     at: Option<Id>)
    requires |outcomes| == |ids| && j <= |ids|
  {
    || (at == server && forall m :: 0 <= m < j ==> !Moves(ids, configured, outcomes, m))
    || (exists m :: 0 <= m < j && Moves(ids, configured, outcomes, m) && at == Some(ids[m])
          && forall l :: m < l < j ==> !Moves(ids, configured, outcomes, l))
  }

  lemma {:induction false} ServerStands(server: Option<Id>, ids: seq<Id>, configured: Option<Id>,
                                        outcomes: seq<Outcome>, j: nat)
    requires |outcomes| == |ids| && j <= |ids|
    ensures StandsAt(server, ids, configured, outcomes, j,
                     Run(Start(server), ids[..j], configured, outcomes[..j]).server)
    decreases j
  {
    if j > 0 {
      var m := j - 1;
      ServerStands(server, ids, configured, outcomes, m);
      assert ids[..j][..m] == ids[..m] && outcomes[..j][..m] == outcomes[..m];
      if Moves(ids, configured, outcomes, m) {
        assert Run(Start(server), ids[..j], configured, outcomes[..j]).server == Some(ids[m]);
      }
    }
  }

  /** The configured provider gets the list of the provider the server stands at when it is last listed. */
  lemma {:induction false} StoredForConfigured(server: Option<Id>, ids: seq<Id>, configured: Option<Id>,
                                               outcomes: seq<Outcome>, j: nat, n: nat)
    requires |outcomes| == |ids| && j < n <= |ids| && Some(ids[j]) == configured && outcomes[j].listed
    requires forall l :: j < l < n && ids[l] == ids[j] ==> !outcomes[l].listed
    ensures var entries := Run(Start(server), ids[..n], configured, outcomes[..n]).entries;
      ids[j] in entries && StandsAt(server, ids, configured, outcomes, j, entries[ids[j]])
    decreases n
  {
    assert ids[..n][..n - 1] == ids[..n - 1] && outcomes[..n][..n - 1] == outcomes[..n - 1];
    if j < n - 1 {
      StoredForConfigured(server, ids, configured, outcomes, j, n - 1);
    } else {
      ServerStands(server, ids, configured, outcomes, j);
    }
  }

  // ----- where the server ends -----

  function FinalServer(last: Progress, configured: Option<Id>, restore: Write): Option<Id> {
    if last.switched then AfterWrite(last.server, configured, restore) else last.server
  }

  /** Some write that names another provider than the configured one ends as `w`. */
  predicate SomeSwitch(ids: seq<Id>, configured: Option<Id>, outcomes: seq<Outcome>, w: Write)
    requires |outcomes| == |ids|
  {
    exists i :: 0 <= i < |ids| && Some(ids[i]) != configured && outcomes[i].write == w
  }

  /** Every write that names another provider than the configured one is refused. */
  predicate AllRefused(ids: seq<Id>, configured: Option<Id>, outcomes: seq<Outcome>)
    requires |outcomes| == |ids|
  {
    forall i :: 0 <= i < |ids| && Some(ids[i]) != configured ==> outcomes[i].write.Refused?
  }

  /** A switch is noticed exactly when its write is confirmed, and the server stays as it was exactly
      when every switch was refused; otherwise it is at another provider than the configured one. */
  lemma {:induction false} SwitchedExactly(server: Option<Id>, ids: seq<Id>, configured: Option<Id>,
                                           outcomes: seq<Outcome>)
    requires |outcomes| == |ids|
    ensures var last := Run(Start(server), ids, configured, outcomes);
      && (last.switched <==> SomeSwitch(ids, configured, outcomes, Applied))
      && (if AllRefused(ids, configured, outcomes) then last.server == server else last.server != configured)
  {
    if ids != [] {
      var n := |ids| - 1;
      var front, before := ids[..n], outcomes[..n];
      SwitchedExactly(server, front, configured, before);
      assert forall i :: 0 <= i < n ==> front[i] == ids[i] && before[i] == outcomes[i];
      assert AllRefused(ids, configured, outcomes) <==>
        AllRefused(front, configured, before) && (Some(ids[n]) == configured || outcomes[n].write.Refused?);
    }
  }

  /** Whichever requests fail and whichever replies are lost, the configured provider is current at the
      end exactly when it was current and no switch took effect, or a switch was confirmed and the write
      that restores it was not refused. A switch whose reply is lost does not count as confirmed. */
  lemma Restored(server: Option<Id>, ids: seq<Id>, configured: Option<Id>, outcomes: seq<Outcome>, restore: Write)
    requires |outcomes| == |ids|
    ensures FinalServer(Run(Start(server), ids, configured, outcomes), configured, restore) == configured <==>
      || (server == configured && AllRefused(ids, configured, outcomes))
      || (SomeSwitch(ids, configured, outcomes, Applied) && !restore.Refused?)
  {
    SwitchedExactly(server, ids, configured, outcomes);
  }

  /** When replies of switches are lost and no switch is confirmed, the server is left at another provider. */
  lemma LostReplyNotRestored(server: Option<Id>, ids: seq<Id>, configured: Option<Id>, outcomes: seq<Outcome>,
                             restore: Write)
    requires |outcomes| == |ids| && SomeSwitch(ids, configured, outcomes, ReplyLost)
    requires !SomeSwitch(ids, configured, outcomes, Applied)
    ensures FinalServer(Run(Start(server), ids, configured, outcomes), configured, restore) != configured
  {
    var i :| 0 <= i < |ids| && Some(ids[i]) != configured && outcomes[i].write == ReplyLost;
    Restored(server, ids, configured, outcomes, restore);
  }

  /** With another provider before the configured one, the list of the other is stored under its id. */
  lemma ConfiguredSecond(a: Id, c: Id)
    requires a != c
    ensures var all := [Outcome(Applied, true), Outcome(Applied, true)];
      Run(Start(Some(c)), [a, c], Some(c), all).entries == map[a := Some(a), c := Some(a)]
  {
    var all := [Outcome(Applied, true), Outcome(Applied, true)];
    assert [a, c][..1] == [a] && all[..1] == [all[0]] && [a][..0] == [] && [all[0]][..0] == [];
    assert Run(Start(Some(c)), [a], Some(c), [all[0]]).server == Some(a);
  }
}
