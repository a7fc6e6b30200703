/** What the transcript guarantees: which entry is active, that no activity is lost, and that a
    streamed delta touches the text of one entry only. */
module TranscriptView {
  import opened Wrappers
  import opened Keyed
  import opened Streaming
  import opened Transcript

  // ----- the active entry -----

  predicate IsLastReply(es: seq<EntryView>, p: int) {
    0 <= p < |es| && es[p].AssistantView? && NoReplyAfter(es, p)
  }

  lemma {:induction false} LastReplyExists(es: seq<EntryView>) returns (p: int)
    requires !AllUsers(es)
    ensures IsLastReply(es, p)
  {
    if es[|es| - 1].AssistantView? {
      p := |es| - 1;
    } else {
      var front := es[..|es| - 1];
      assert !AllUsers(front) by {
        var i :| 0 <= i < |es| && !es[i].UserView?;
        assert front[i] == es[i];
      }
      p := LastReplyExists(front);
    }
  }

  /** Every turn has a last assistant entry. It alone may be active, and it is active exactly when the
      turn is unfinished; every assistant entry carries the turn's status and duration. */
  lemma {:induction false} OnlyLastReplyActive(turn: Turn, render: Render, goals: set<Id>) returns (p: int)
    ensures var es := TurnEntries(turn, render, goals);
      && IsLastReply(es, p)
      && es[p].active == Unfinished(turn)
      && forall i :: 0 <= i < |es| && es[i].AssistantView? ==>
        && es[i].turnId == turn.id && es[i].status == turn.status && es[i].durationMs == turn.durationMs
        && (es[i].active ==> i == p)
  {
    var runs := Runs(turn.items, render);
    var n := |turn.items|;
    var raw := RawUpTo(turn, n, runs, goals);
    var all := WithSummary(raw, turn);
    CompletedTurn(turn, render, goals, raw);
    RawTurnIds(turn, n, runs, goals);
    SummaryLast(raw, turn);
    p := LastReplyExists(all);
    CompletedReplies(all, turn, runs[n], p);
  }

  lemma SummaryLast(raw: seq<EntryView>, turn: Turn)
    requires forall v :: v in raw && v.AssistantView? ==> v.turnId == turn.id
    ensures !AllUsers(WithSummary(raw, turn))
    ensures forall v :: v in WithSummary(raw, turn) && v.AssistantView? ==> v.turnId == turn.id
  {
    AllUsersConcat(raw, [SummaryFor(turn)]);
    assert [SummaryFor(turn)][0].AssistantView?;
  }

  /** Completion marks the last assistant entry, and gives all of them the turn's status and duration. */
  lemma CompletedReplies(all: seq<EntryView>, turn: Turn, trailing: seq<Activity>, p: int)
    requires IsLastReply(all, p) && forall v :: v in all && v.AssistantView? ==> v.turnId == turn.id
    ensures var es := CompleteAll(all, turn, trailing, false);
      && IsLastReply(es, p)
      && es[p].active == Unfinished(turn)
      && forall i :: 0 <= i < |es| && es[i].AssistantView? ==>
        && es[i].turnId == turn.id && es[i].status == turn.status && es[i].durationMs == turn.durationMs
        && (es[i].active ==> i == p)
  {
    var es := CompleteAll(all, turn, trailing, false);
    CompleteAllAt(all, turn, trailing, false, p);
    forall i | 0 <= i < |es|
      ensures es[i] == Complete(all[i], turn, trailing, NoReplyAfter(all, i))
    {
      CompleteAllAt(all, turn, trailing, false, i);
    }
    assert forall i :: 0 <= i < |all| ==> all[i] in all;
  }

  lemma {:induction false} RawTurnIds(turn: Turn, n: int, runs: seq<seq<Activity>>, goals: set<Id>)
    requires 0 <= n <= |turn.items| && |runs| == |turn.items| + 1
    ensures forall v :: v in RawUpTo(turn, n, runs, goals) && v.AssistantView? ==> v.turnId == turn.id
  {
    if n > 0 {
      RawTurnIds(turn, n - 1, runs, goals);
    }
  }

  // ----- nothing is lost -----

  /** The activities of a list of entries, in the order they are shown. */
  function Shown(es: seq<EntryView>): seq<Activity> {
    if es == [] then []
    else
      var e := es[|es| - 1];
      Shown(es[..|es| - 1]) + if e.AssistantView? then e.activities else []
  }

  /** The runs that end at the agent messages among the first `n` items. */
  function AgentRuns(items: seq<Item>, n: int, runs: seq<seq<Activity>>): seq<Activity>
    requires 0 <= n <= |items| < |runs|
  {
    if n == 0 then []
    else AgentRuns(items, n - 1, runs) + if items[n - 1].AgentMessage? then runs[n - 1] else []
  }

  lemma {:induction false} ShownAppend(es: seq<EntryView>, e: EntryView)
    ensures Shown(es + [e]) == Shown(es) + if e.AssistantView? then e.activities else []
  {
    assert (es + [e])[..|es|] == es;
  }

  /** What the entry of one item adds to what is shown. */
  lemma ShownEntry(es: seq<EntryView>, item: Item, turn: Turn, run: seq<Activity>, trailing: seq<Activity>,
                   isLast: bool, goal: bool)
    ensures Shown(es + EntryFor(item, turn, run, trailing, isLast, goal))
         == if item.AgentMessage? then Shown(es) + (run + if isLast then trailing else []) else Shown(es)
  {
    var added := EntryFor(item, turn, run, trailing, isLast, goal);
    if added == [] {
      assert es + added == es;
    } else {
      assert added == [added[0]];
      ShownAppend(es, added[0]);
      assert Shown(es) + [] == Shown(es);
    }
  }

  lemma JoinRuns(shown: seq<Activity>, run: seq<Activity>, trailing: seq<Activity>)
    ensures shown + [] + (run + []) == shown + run + []
    ensures shown + [] + (run + trailing) == shown + run + trailing
    ensures shown + [] + trailing == shown + trailing && shown + [] + [] == shown + []
  {
  }

  lemma AgentRunsStep(items: seq<Item>, k: int, runs: seq<seq<Activity>>)
    requires 0 <= k < |items| < |runs|
    ensures AgentRuns(items, k + 1, runs) == AgentRuns(items, k, runs) + if items[k].AgentMessage? then runs[k] else []
  {
  }

  /** Whether the trailing run is shown by the first `n` items. */
  function Tail(last: int, n: int, trailing: seq<Activity>): seq<Activity> { if 0 <= last < n then trailing else [] }

  lemma {:induction false} ShownPrefix(turn: Turn, n: int, runs: seq<seq<Activity>>, last: int, goals: set<Id>)
    requires 0 <= n <= |turn.items| && |runs| == |turn.items| + 1
    requires last == PrevAgent(turn.items, |turn.items|)
    ensures Shown(EntriesUpTo(turn, n, runs, last, goals))
            == AgentRuns(turn.items, n, runs) + Tail(last, n, runs[|turn.items|])
  {
    if n > 0 {
      var k := n - 1;
      var trailing := runs[|turn.items|];
      ShownPrefix(turn, k, runs, last, goals);
      ShownEntry(EntriesUpTo(turn, k, runs, last, goals), turn.items[k], turn, runs[k], trailing,
                 k == last, IsGoal(turn, k, goals));
      AgentRunsStep(turn.items, k, runs);
      JoinRuns(AgentRuns(turn.items, k, runs), runs[k], trailing);
    }
  }

  /** A turn shows every run, in order: those before its agent messages, then the trailing one. */
  lemma {:induction false} TurnShowsAllRuns(turn: Turn, render: Render, goals: set<Id>)
    ensures var runs := Runs(turn.items, render);
      Shown(TurnEntries(turn, render, goals)) == AgentRuns(turn.items, |turn.items|, runs) + runs[|turn.items|]
  {
    var n := |turn.items|;
    var runs := Runs(turn.items, render);
    var last := PrevAgent(turn.items, n);
    ShownPrefix(turn, n, runs, last, goals);
    var front := EntriesUpTo(turn, n, runs, last, goals);
    if last < 0 {
      ShownAppend(front, TurnEntries(turn, render, goals)[|front|]);
    } else {
      assert front + [] == front;
    }
  }

  lemma {:induction false} DedupDistinct<T>(xs: seq<T>, key: T -> Id)
    requires Distinct(Keys(xs, key))
    ensures Dedup(xs, key) == xs
  {
    FirstSeenDistinct(Keys(xs, key));
    forall i | 0 <= i < |xs|
      ensures Dedup(xs, key)[i] == xs[i]
    {
      assert Keys(xs, key)[i] in Keys(xs, key);
      var r := LastWith(xs, key(xs[i]), key);
      var j :| 0 <= j < |xs| && xs[j] == r;
      assert Keys(xs, key)[j] == Keys(xs, key)[i];
    }
  }

  lemma {:induction false} ActivityIds(items: seq<Item>, render: Render)
    requires Distinct(ItemIds(items))
    ensures Distinct(Keys(Activities(items, render), ActivityKey))
    ensures forall i :: 0 <= i < |Activities(items, render)| ==> Activities(items, render)[i].id in ItemIds(items)
  {
    if items != [] {
      var front := items[..|items| - 1];
      var item := items[|items| - 1];
      assert ItemIds(items) == ItemIds(front) + [item.id];
      assert Distinct(ItemIds(front)) by {
        assert forall i :: 0 <= i < |front| ==> ItemIds(front)[i] == ItemIds(items)[i];
      }
      ActivityIds(front, render);
      assert item.id !in ItemIds(front);
      var a := ActivityOf(item, render);
      if a.Some? {
        var before := Activities(front, render);
        assert Activities(items, render) == before + [a.value];
        assert forall i :: 0 <= i < |before| ==> before[i].id in ItemIds(front);
      } else {
        assert Activities(items, render) == Activities(front, render);
      }
    }
  }

  lemma {:induction false} RunsDistinct(items: seq<Item>, render: Render, k: int)
    requires Distinct(ItemIds(items)) && 0 <= k <= |items|
    ensures Runs(items, render)[k] == Activities(RunItems(items, k), render)
  {
    RunsMeaning(items, render, k);
    var run := RunItems(items, k);
    var p := PrevAgent(items, k) + 1;
    assert Distinct(ItemIds(run)) by {
      assert forall i :: 0 <= i < |run| ==> ItemIds(run)[i] == ItemIds(items)[p + i];
    }
    ActivityIds(run, render);
    DedupDistinct(Activities(run, render), ActivityKey);
  }

  function ActivityList(item: Item, render: Render): seq<Activity> {
    var a := ActivityOf(item, render);
    if a.Some? then [a.value] else []
  }

  lemma ActivitiesSnoc(items: seq<Item>, item: Item, render: Render)
    ensures Activities(items + [item], render) == Activities(items, render) + ActivityList(item, render)
  {
    assert (items + [item])[..|items|] == items;
  }

  lemma ActivitiesPrefix(items: seq<Item>, k: int, render: Render)
    requires 0 <= k < |items|
    ensures Activities(items[..k + 1], render) == Activities(items[..k], render) + ActivityList(items[k], render)
  {
    assert items[..k + 1] == items[..k] + [items[k]];
    ActivitiesSnoc(items[..k], items[k], render);
  }

  lemma RunActivities(items: seq<Item>, k: int, render: Render)
    requires 0 <= k < |items|
    ensures Activities(RunItems(items, k + 1), render)
         == if items[k].AgentMessage? then []
            else Activities(RunItems(items, k), render) + ActivityList(items[k], render)
  {
    RunItemsStep(items, k);
    ActivitiesSnoc(RunItems(items, k), items[k], render);
  }

  lemma MoveRun(shown: seq<Activity>, run: seq<Activity>, a: seq<Activity>, agent: bool)
    requires agent ==> a == []
    ensures (shown + if agent then run else []) + (if agent then [] else run + a) == shown + run + a
  {
  }

  lemma SplitStep(items: seq<Item>, render: Render, k: int, runs: seq<seq<Activity>>)
    requires 0 <= k < |items| < |runs| && runs[k] == Activities(RunItems(items, k), render)
    requires AgentRuns(items, k, runs) + Activities(RunItems(items, k), render) == Activities(items[..k], render)
    ensures AgentRuns(items, k + 1, runs) + Activities(RunItems(items, k + 1), render)
         == Activities(items[..k + 1], render)
  {
    AgentRunsStep(items, k, runs);
    ActivitiesPrefix(items, k, render);
    RunActivities(items, k, render);
    MoveRun(AgentRuns(items, k, runs), runs[k], ActivityList(items[k], render), items[k].AgentMessage?);
  }

  lemma {:induction false} ActivitiesSplit(items: seq<Item>, render: Render, n: int)
    requires Distinct(ItemIds(items)) && 0 <= n <= |items|
    ensures AgentRuns(items, n, Runs(items, render)) + Activities(RunItems(items, n), render)
         == Activities(items[..n], render)
  {
    if n == 0 {
      assert RunItems(items, 0) == [];
    } else {
      var k := n - 1;
      ActivitiesSplit(items, render, k);
      RunsDistinct(items, render, k);
      SplitStep(items, render, k, Runs(items, render));
    }
  }

  /** With distinct item identifiers a turn shows exactly its activities, each once and in order. */
  lemma {:induction false} NothingLost(turn: Turn, render: Render, goals: set<Id>)
    requires Distinct(ItemIds(turn.items))
    ensures Shown(TurnEntries(turn, render, goals)) == Activities(turn.items, render)
  {
    var n := |turn.items|;
    TurnShowsAllRuns(turn, render, goals);
    RunsDistinct(turn.items, render, n);
    ActivitiesSplit(turn.items, render, n);
    assert turn.items[..n] == turn.items;
  }

  // ----- a delta is local -----

  predicate IsReplyTo(v: EntryView, turnId: Id, id: Id) {
    v.AssistantView? && v.turnId == turnId && v.id == id
  }

  /** Extend the text of the entry of one agent message; everything else stays. */
  function ExtendView(v: EntryView, turnId: Id, id: Id, delta: string): EntryView {
    if IsReplyTo(v, turnId, id) then v.(text := v.text + delta) else v
  }

  function ExtendViews(es: seq<EntryView>, turnId: Id, id: Id, delta: string): (r: seq<EntryView>)
    ensures |r| == |es|
    ensures forall i :: 0 <= i < |es| ==> r[i] == ExtendView(es[i], turnId, id, delta)
  {
    seq(|es|, i requires 0 <= i < |es| => ExtendView(es[i], turnId, id, delta))
  }

  lemma {:induction false} ExtendViewsConcat(a: seq<EntryView>, b: seq<EntryView>, turnId: Id, id: Id, delta: string)
    ensures ExtendViews(a + b, turnId, id, delta)
            == ExtendViews(a, turnId, id, delta) + ExtendViews(b, turnId, id, delta)
  {
  }

  /** The items of a turn with one agent message extended. */
  function ExtendItem(items: seq<Item>, k: int, delta: string): seq<Item>
    requires 0 <= k < |items|
  {
    items[k := Extended(items[k], delta)]
  }

  lemma {:induction false} RunsUnchanged(items: seq<Item>, k: int, delta: string, render: Render)
    requires 0 <= k < |items| && items[k].AgentMessage?
    ensures Runs(ExtendItem(items, k, delta), render) == Runs(items, render)
  {
    var n := |items| - 1;
    var changed := ExtendItem(items, k, delta);
    if k < n {
      RunsUnchanged(items[..n], k, delta, render);
      assert changed[..n] == ExtendItem(items[..n], k, delta);
    } else {
      assert changed[..n] == items[..n];
    }
  }

  lemma {:induction false} PrevAgentUnchanged(items: seq<Item>, k: int, delta: string, n: int)
    requires 0 <= k < |items| && 0 <= n <= |items|
    ensures PrevAgent(ExtendItem(items, k, delta), n) == PrevAgent(items, n)
  {
    if n > 0 {
      PrevAgentUnchanged(items, k, delta, n - 1);
    }
  }

  lemma {:induction false} GoalUnchanged(turn: Turn, k: int, delta: string, n: int, goals: set<Id>)
    requires 0 <= k < |turn.items| && 0 <= n < |turn.items|
    ensures IsGoal(turn.(items := ExtendItem(turn.items, k, delta)), n, goals) == IsGoal(turn, n, goals)
  {
    var changed := ExtendItem(turn.items, k, delta);
    if HasUserBefore(turn.items, n) {
      var i :| 0 <= i < n && turn.items[i].UserMessage?;
      assert changed[i].UserMessage?;
    }
  }

  /** One item's entry changes in its text only, and only for the extended message. */
  lemma {:induction false} EntryExtended(item: Item, changed: Item, turn: Turn, next: Turn, run: seq<Activity>,
                                         trailing: seq<Activity>, isLast: bool, goal: bool, id: Id, delta: string)
    requires next == turn.(items := next.items)
    requires changed == if item.id == id then Extended(item, delta) else item
    ensures EntryFor(changed, next, run, trailing, isLast, goal)
         == ExtendViews(EntryFor(item, turn, run, trailing, isLast, goal), turn.id, id, delta)
  {
  }

  lemma {:induction false} EntriesExtended(turn: Turn, k: int, delta: string, n: int, runs: seq<seq<Activity>>,
                                           last: int, goals: set<Id>)
    requires Distinct(ItemIds(turn.items)) && |runs| == |turn.items| + 1
    requires 0 <= k < |turn.items| && 0 <= n <= |turn.items|
    ensures EntriesUpTo(turn.(items := ExtendItem(turn.items, k, delta)), n, runs, last, goals)
         == ExtendViews(EntriesUpTo(turn, n, runs, last, goals), turn.id, turn.items[k].id, delta)
  {
    if n > 0 {
      var m := n - 1;
      var id := turn.items[k].id;
      var next := turn.(items := ExtendItem(turn.items, k, delta));
      EntriesExtended(turn, k, delta, m, runs, last, goals);
      GoalUnchanged(turn, k, delta, m, goals);
      assert m != k ==> ItemIds(turn.items)[m] != ItemIds(turn.items)[k];
      var goal := IsGoal(turn, m, goals);
      EntryExtended(turn.items[m], next.items[m], turn, next, runs[m], runs[|turn.items|], m == last, goal, id, delta);
      ExtendViewsConcat(EntriesUpTo(turn, m, runs, last, goals),
                        EntryFor(turn.items[m], turn, runs[m], runs[|turn.items|], m == last, goal), turn.id, id,
                        delta);
    }
  }

  lemma {:induction false} TurnExtended(turn: Turn, k: int, delta: string, render: Render, goals: set<Id>)
    requires Distinct(ItemIds(turn.items))
    requires 0 <= k < |turn.items| && turn.items[k].AgentMessage?
    ensures TurnEntries(turn.(items := ExtendItem(turn.items, k, delta)), render, goals)
         == ExtendViews(TurnEntries(turn, render, goals), turn.id, turn.items[k].id, delta)
  {
    var n := |turn.items|;
    var runs := Runs(turn.items, render);
    var last := PrevAgent(turn.items, n);
    RunsUnchanged(turn.items, k, delta, render);
    PrevAgentUnchanged(turn.items, k, delta, n);
    EntriesExtended(turn, k, delta, n, runs, last, goals);
    assert last >= 0;
    assert EntriesUpTo(turn, n, runs, last, goals) + [] == EntriesUpTo(turn, n, runs, last, goals);
  }

  /** Entries of other turns are out of reach. */
  lemma {:induction false} TurnUntouched(turn: Turn, render: Render, goals: set<Id>, turnId: Id, id: Id, delta: string)
    requires turn.id != turnId
    ensures ExtendViews(TurnEntries(turn, render, goals), turnId, id, delta) == TurnEntries(turn, render, goals)
  {
    var p := OnlyLastReplyActive(turn, render, goals);
  }

  lemma TranscriptSnoc(front: seq<Turn>, turn: Turn, render: Render, goals: set<Id>)
    ensures TranscriptOf(front + [turn], render, goals)
            == TranscriptOf(front, render, goals) + TurnEntries(turn, render, goals)
  {
    assert (front + [turn])[..|front|] == front;
  }

  /** The transcript of a list with its last turn replaced, or with an earlier one. */
  lemma SnocExtended(front: seq<Turn>, turn: Turn, changedFront: seq<Turn>, changed: Turn, render: Render,
                     goals: set<Id>,
                     turnId: Id, id: Id, delta: string)
    requires TranscriptOf(changedFront, render, goals)
             == ExtendViews(TranscriptOf(front, render, goals), turnId, id, delta)
    requires TurnEntries(changed, render, goals) == ExtendViews(TurnEntries(turn, render, goals), turnId, id, delta)
    ensures TranscriptOf(changedFront + [changed], render, goals)
         == ExtendViews(TranscriptOf(front + [turn], render, goals), turnId, id, delta)
  {
    TranscriptSnoc(front, turn, render, goals);
    TranscriptSnoc(changedFront, changed, render, goals);
    ExtendViewsConcat(TranscriptOf(front, render, goals), TurnEntries(turn, render, goals), turnId, id, delta);
  }

  function ExtendTurn(turn: Turn, k: int, delta: string): Turn
    requires 0 <= k < |turn.items|
  {
    turn.(items := ExtendItem(turn.items, k, delta))
  }

  lemma {:induction false} TranscriptExtended(turns: seq<Turn>, t: int, k: int, delta: string, render: Render,
                                              goals: set<Id>)
    requires WellFormed(turns)
    requires 0 <= t < |turns| && 0 <= k < |turns[t].items| && turns[t].items[k].AgentMessage?
    ensures TranscriptOf(turns[t := ExtendTurn(turns[t], k, delta)], render, goals)
         == ExtendViews(TranscriptOf(turns, render, goals), turns[t].id, turns[t].items[k].id, delta)
  {
    var m := |turns| - 1;
    var front := turns[..m];
    var turnId, id := turns[t].id, turns[t].items[k].id;
    var changed := ExtendTurn(turns[t], k, delta);
    PrefixWellFormed(turns);
    assert turns == front + [turns[m]];
    if t < m {
      assert TurnIds(turns)[m] != TurnIds(turns)[t];
      TurnUntouched(turns[m], render, goals, turnId, id, delta);
      TranscriptExtended(front, t, k, delta, render, goals);
      SnocExtended(front, turns[m], front[t := changed], turns[m], render, goals, turnId, id, delta);
      assert turns[t := changed] == front[t := changed] + [turns[m]];
    } else {
      OthersDiffer(turns);
      TurnExtended(turns[m], k, delta, render, goals);
      OthersUntouched(front, render, goals, turnId, id, delta);
      SnocExtended(front, turns[m], front, changed, render, goals, turnId, id, delta);
      assert turns[t := changed] == front + [changed];
    }
  }

  lemma OthersDiffer(turns: seq<Turn>)
    requires WellFormed(turns) && turns != []
    ensures var front := turns[..|turns| - 1]; forall i :: 0 <= i < |front| ==> front[i].id != turns[|turns| - 1].id
  {
    assert forall i :: 0 <= i < |turns| - 1 ==> TurnIds(turns)[i] != TurnIds(turns)[|turns| - 1];
  }

  lemma PrefixWellFormed(turns: seq<Turn>)
    requires WellFormed(turns) && turns != []
    ensures WellFormed(turns[..|turns| - 1])
  {
    var front := turns[..|turns| - 1];
    assert forall i :: 0 <= i < |front| ==> TurnIds(front)[i] == TurnIds(turns)[i];
  }

  lemma {:induction false} OthersUntouched(front: seq<Turn>, render: Render, goals: set<Id>, turnId: Id, id: Id,
                                           delta: string)
    requires forall i :: 0 <= i < |front| ==> front[i].id != turnId
    ensures ExtendViews(TranscriptOf(front, render, goals), turnId, id, delta) == TranscriptOf(front, render, goals)
  {
    if front != [] {
      var m := |front| - 1;
      OthersUntouched(front[..m], render, goals, turnId, id, delta);
      TurnUntouched(front[m], render, goals, turnId, id, delta);
      ExtendViewsConcat(TranscriptOf(front[..m], render, goals), TurnEntries(front[m], render, goals), turnId, id,
                        delta);
    }
  }

  /** What the reducer does with a delta to a known agent message. */
  lemma {:induction false} DeltaStep(turns: seq<Turn>, t: int, k: int, delta: string)
    requires WellFormed(turns)
    requires 0 <= t < |turns| && 0 <= k < |turns[t].items|
    ensures Step(turns, DeltaEvent(turns[t].id, turns[t].items[k].id, delta))
         == turns[t := turns[t].(items := ExtendItem(turns[t].items, k, delta))]
  {
    var turnId, items := turns[t].id, turns[t].items;
    FindAt(turns, t, TurnKey);
    FindAt(items, k, ItemKey);
    assert forall i :: 0 <= i < |items| && i != k ==> ItemIds(items)[i] != ItemIds(items)[k];
    assert AppendDelta(items, items[k].id, delta) == ExtendItem(items, k, delta);
    forall i | 0 <= i < |turns|
      ensures i != t ==> turns[i].id != turnId
    {
      assert i != t ==> TurnIds(turns)[i] != TurnIds(turns)[t];
    }
  }

  /** A delta to a known agent message extends the text of that message's one entry and changes
      nothing else in the view: not the order, the activities or the flags of any entry. */
  lemma {:induction false} DeltaIsLocal(turns: seq<Turn>, t: int, k: int, delta: string, render: Render, goals: set<Id>)
    requires WellFormed(turns)
    requires 0 <= t < |turns| && 0 <= k < |turns[t].items| && turns[t].items[k].AgentMessage?
    ensures var e := DeltaEvent(turns[t].id, turns[t].items[k].id, delta);
      TranscriptOf(Step(turns, e), render, goals)
      == ExtendViews(TranscriptOf(turns, render, goals), e.turnId, e.itemId, delta)
  {
    DeltaStep(turns, t, k, delta);
    TranscriptExtended(turns, t, k, delta, render, goals);
  }

  // ----- that entry is there, and only once -----

  /** The entries of one agent message. */
  function RepliesTo(es: seq<EntryView>, turnId: Id, id: Id): seq<EntryView> {
    if es == [] then []
    else
      var e := es[|es| - 1];
      RepliesTo(es[..|es| - 1], turnId, id) + if IsReplyTo(e, turnId, id) then [e] else []
  }

  lemma {:induction false} RepliesToConcat(a: seq<EntryView>, b: seq<EntryView>, turnId: Id, id: Id)
    ensures RepliesTo(a + b, turnId, id) == RepliesTo(a, turnId, id) + RepliesTo(b, turnId, id)
  {
    if b == [] {
      assert a + b == a;
    } else {
      var front := b[..|b| - 1];
      RepliesToConcat(a, front, turnId, id);
      assert (a + b)[..|a + b| - 1] == a + front;
    }
  }

  lemma {:induction false} NoRepliesTo(es: seq<EntryView>, turnId: Id, id: Id)
    requires forall i :: 0 <= i < |es| ==> !IsReplyTo(es[i], turnId, id)
    ensures RepliesTo(es, turnId, id) == []
  {
    if es != [] {
      NoRepliesTo(es[..|es| - 1], turnId, id);
    }
  }

  predicate OnlyText(found: seq<EntryView>, text: string) {
    |found| == 1 && found[0].AssistantView? && found[0].text == text
  }

  lemma {:induction false} RepliesToEntry(item: Item, turn: Turn, run: seq<Activity>, trailing: seq<Activity>,
                                          isLast: bool, goal: bool, id: Id)
    ensures var found := RepliesTo(EntryFor(item, turn, run, trailing, isLast, goal), turn.id, id);
      if item.AgentMessage? && item.id == id then OnlyText(found, item.text) else found == []
  {
    var es := EntryFor(item, turn, run, trailing, isLast, goal);
    if es != [] {
      assert es[..0] == [];
    }
  }

  lemma OneOf(before: seq<EntryView>, here: seq<EntryView>)
    ensures before == [] ==> before + here == here
    ensures here == [] ==> before + here == before
  {
  }

  lemma {:induction false} RepliesToPrefix(turn: Turn, k: int, n: int, runs: seq<seq<Activity>>, last: int,
                                           goals: set<Id>)
    requires Distinct(ItemIds(turn.items)) && |runs| == |turn.items| + 1
    requires 0 <= k < |turn.items| && 0 <= n <= |turn.items| && turn.items[k].AgentMessage?
    ensures var found := RepliesTo(EntriesUpTo(turn, n, runs, last, goals), turn.id, turn.items[k].id);
      if k < n then OnlyText(found, turn.items[k].text) else found == []
  {
    if n > 0 {
      var m := n - 1;
      var id := turn.items[k].id;
      var front := EntriesUpTo(turn, m, runs, last, goals);
      var added := EntryFor(turn.items[m], turn, runs[m], runs[|turn.items|], m == last, IsGoal(turn, m, goals));
      RepliesToPrefix(turn, k, m, runs, last, goals);
      assert EntriesUpTo(turn, n, runs, last, goals) == front + added;
      RepliesToConcat(front, added, turn.id, id);
      RepliesToEntry(turn.items[m], turn, runs[m], runs[|turn.items|], m == last, IsGoal(turn, m, goals), id);
      assert m != k ==> ItemIds(turn.items)[m] != ItemIds(turn.items)[k];
      OneOf(RepliesTo(front, turn.id, id), RepliesTo(added, turn.id, id));
    }
  }

  lemma {:induction false} RepliesInTurn(turn: Turn, k: int, render: Render, goals: set<Id>)
    requires Distinct(ItemIds(turn.items))
    requires 0 <= k < |turn.items| && turn.items[k].AgentMessage?
    ensures OnlyText(RepliesTo(TurnEntries(turn, render, goals), turn.id, turn.items[k].id), turn.items[k].text)
  {
    var n := |turn.items|;
    var runs, last := Runs(turn.items, render), PrevAgent(turn.items, n);
    RepliesToPrefix(turn, k, n, runs, last, goals);
    assert EntriesUpTo(turn, n, runs, last, goals) + [] == EntriesUpTo(turn, n, runs, last, goals);
  }

  lemma {:induction false} NoRepliesInTurn(turn: Turn, render: Render, goals: set<Id>, turnId: Id, id: Id)
    requires turn.id != turnId
    ensures RepliesTo(TurnEntries(turn, render, goals), turnId, id) == []
  {
    var p := OnlyLastReplyActive(turn, render, goals);
    NoRepliesTo(TurnEntries(turn, render, goals), turnId, id);
  }

  lemma {:induction false} NoRepliesElsewhere(turns: seq<Turn>, render: Render, goals: set<Id>, turnId: Id, id: Id)
    requires forall i :: 0 <= i < |turns| ==> turns[i].id != turnId
    ensures RepliesTo(TranscriptOf(turns, render, goals), turnId, id) == []
  {
    if turns != [] {
      var m := |turns| - 1;
      NoRepliesElsewhere(turns[..m], render, goals, turnId, id);
      NoRepliesInTurn(turns[m], render, goals, turnId, id);
      RepliesToConcat(TranscriptOf(turns[..m], render, goals), TurnEntries(turns[m], render, goals), turnId, id);
    }
  }

  /** Every agent message has exactly one entry, and it shows the message's text. */
  lemma {:induction false} OneEntryPerMessage(turns: seq<Turn>, t: int, k: int, render: Render, goals: set<Id>)
    requires WellFormed(turns)
    requires 0 <= t < |turns| && 0 <= k < |turns[t].items| && turns[t].items[k].AgentMessage?
    ensures OnlyText(RepliesTo(TranscriptOf(turns, render, goals), turns[t].id, turns[t].items[k].id),
                     turns[t].items[k].text)
  {
    var m := |turns| - 1;
    var front, turn := turns[..m], turns[m];
    var turnId, id := turns[t].id, turns[t].items[k].id;
    PrefixWellFormed(turns);
    RepliesToConcat(TranscriptOf(front, render, goals), TurnEntries(turn, render, goals), turnId, id);
    if t < m {
      assert TurnIds(turns)[m] != TurnIds(turns)[t];
      OneEntryPerMessage(front, t, k, render, goals);
      NoRepliesInTurn(turn, render, goals, turnId, id);
      assert RepliesTo(TranscriptOf(front, render, goals), turnId, id) + []
        == RepliesTo(TranscriptOf(front, render, goals), turnId, id);
    } else {
      assert forall i :: 0 <= i < m ==> TurnIds(turns)[i] != TurnIds(turns)[m];
      NoRepliesElsewhere(front, render, goals, turnId, id);
      RepliesInTurn(turn, k, render, goals);
      assert [] + RepliesTo(TurnEntries(turn, render, goals), turnId, id)
        == RepliesTo(TurnEntries(turn, render, goals), turnId, id);
    }
  }
}
