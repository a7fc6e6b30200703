/** The transcript view: turns rendered as a list of user and assistant entries. Assistant entries
    are objects that a turn first creates and later completes in place. */
module Transcript {
  import opened Wrappers
  import opened Keyed
  import opened Streaming

  datatype Activity = Activity(id: Id, body: string)

  const ActivityKey: Activity -> Id := (a: Activity) => a.id

  /** How work items are shown; kinds without a rendering have no activity. */
  type Render = string -> Option<string>

  function ActivityOf(item: Item, render: Render): Option<Activity> {
    if item.WorkItem? then
      var body := render(item.payload);
      if body.Some? then Some(Activity(item.id, body.value)) else None
    else None
  }

  function TextOf(content: seq<UserInput>): string {
    JoinLines(Texts(content))
  }

  function Texts(content: seq<UserInput>): seq<string> {
    if content == [] then []
    else
      var n := |content| - 1;
      Texts(content[..n]) + if content[n].TextInput? then [content[n].text] else []
  }

  function JoinLines(parts: seq<string>): string {
    if parts == [] then ""
    else if |parts| == 1 then parts[0]
    else parts[0] + "\n" + JoinLines(parts[1..])
  }

  function ImagesOf(content: seq<UserInput>): seq<string> {
    if content == [] then []
    else
      var n := |content| - 1;
      ImagesOf(content[..n])
      + if content[n].LocalImage? then [content[n].path] else if content[n].Image? then [content[n].url] else []
  }

  datatype EntryView =
    | UserView(id: Id, text: string, images: seq<string>, goal: bool)
    | AssistantView(id: Id, turnId: Id, text: string, activities: seq<Activity>,
                    durationMs: Option<int>, startedAtMs: Option<int>,
                    status: Option<TurnStatus>, active: bool)

  // ----- specification: runs of activities between agent messages -----

  predicate Unfinished(turn: Turn) {
    turn.status == None || turn.status == Some(InProgress)
  }

  /** The activities of a list of items, in order. */
  function Activities(items: seq<Item>, render: Render): seq<Activity> {
    if items == [] then []
    else
      var a := ActivityOf(items[|items| - 1], render);
      Activities(items[..|items| - 1], render) + if a.Some? then [a.value] else []
  }

  /** The position of the last agent message before position `k`, or -1. */
  function PrevAgent(items: seq<Item>, k: int): (p: int)
    requires 0 <= k <= |items|
    ensures -1 <= p < k
    ensures p >= 0 ==> items[p].AgentMessage?
    ensures forall i :: p < i < k ==> !items[i].AgentMessage?
  {
    if k == 0 then -1
    else if items[k - 1].AgentMessage? then k - 1
    else PrevAgent(items, k - 1)
  }

  /** The items after the last agent message before position `k`. */
  function RunItems(items: seq<Item>, k: int): seq<Item>
    requires 0 <= k <= |items|
  {
    items[PrevAgent(items, k) + 1..k]
  }

  /** The run of activities that ends just before position `k`: each identifier once, at its first
      position, with its last value. */
  function RunBefore(items: seq<Item>, k: int, render: Render): seq<Activity>
    requires 0 <= k <= |items|
  {
    Dedup(Activities(RunItems(items, k), render), ActivityKey)
  }

  predicate HasUserBefore(items: seq<Item>, k: int)
    requires 0 <= k <= |items|
  {
    exists i :: 0 <= i < k && items[i].UserMessage?
  }

  /** The entry, if any, of one item of a turn: `run` is the run of activities before it, `trailing`
      the one after the last agent message, and `goal` marks the first user message of a goal turn. */
  function EntryFor(item: Item, turn: Turn, run: seq<Activity>, trailing: seq<Activity>, isLast: bool,
                    goal: bool): seq<EntryView> {
    match item
    case UserMessage(id, content) => [UserView(id, TextOf(content), ImagesOf(content), goal)]
    case AgentMessage(id, text, _) =>
      [AssistantView(id, turn.id, text, run + (if isLast then trailing else []),
                     turn.durationMs, turn.startedAtMs, turn.status, isLast && Unfinished(turn))]
    case WorkItem(_, _) => []
  }

  predicate IsGoal(turn: Turn, k: int, goals: set<Id>)
    requires 0 <= k < |turn.items|
  {
    turn.id in goals && !HasUserBefore(turn.items, k)
  }

  /** An agent message ends the run of activities; an activity is upserted into it. */
  function NextRun(run: seq<Activity>, item: Item, render: Render): seq<Activity> {
    if item.AgentMessage? then []
    else if ActivityOf(item, render).Some? then Upsert(run, ActivityOf(item, render).value, ActivityKey)
    else run
  }

  /** For every position of a turn, the run of activities that ends there; `RunsMeaning` gives it in
      closed form. */
  function Runs(items: seq<Item>, render: Render): (runs: seq<seq<Activity>>)
    ensures |runs| == |items| + 1
  {
    if items == [] then [[]]
    else
      var runs := Runs(items[..|items| - 1], render);
      runs + [NextRun(runs[|items| - 1], items[|items| - 1], render)]
  }

  /** The entries of the first `n` items of a turn whose last agent message is at `last`. */
  function EntriesUpTo(turn: Turn, n: int, runs: seq<seq<Activity>>, last: int, goals: set<Id>): seq<EntryView>
    requires 0 <= n <= |turn.items| && |runs| == |turn.items| + 1
  {
    if n == 0 then []
    else
      EntriesUpTo(turn, n - 1, runs, last, goals)
      + EntryFor(turn.items[n - 1], turn, runs[n - 1], runs[|turn.items|], n - 1 == last, IsGoal(turn, n - 1, goals))
  }

  /** The entries of a turn. A turn without agent messages shows its activities in a summary. */
  function TurnEntries(turn: Turn, render: Render, goals: set<Id>): seq<EntryView> {
    var n := |turn.items|;
    var runs := Runs(turn.items, render);
    var last := PrevAgent(turn.items, n);
    EntriesUpTo(turn, n, runs, last, goals)
    + if last >= 0 then []
      else [AssistantView(turn.id + "-summary", turn.id, "", runs[n],
                          turn.durationMs, turn.startedAtMs, turn.status, Unfinished(turn))]
  }

  function TranscriptOf(turns: seq<Turn>, render: Render, goals: set<Id>): seq<EntryView> {
    if turns == [] then []
    else TranscriptOf(turns[..|turns| - 1], render, goals) + TurnEntries(turns[|turns| - 1], render, goals)
  }

  // ----- the entries before a turn is completed, and their completion -----

  function RawFor(item: Item, turn: Turn, run: seq<Activity>, goal: bool): seq<EntryView> {
    match item
    case UserMessage(id, content) => [UserView(id, TextOf(content), ImagesOf(content), goal)]
    case AgentMessage(id, text, _) =>
      [AssistantView(id, turn.id, text, run, None, turn.startedAtMs, turn.status, false)]
    case WorkItem(_, _) => []
  }

  function RawUpTo(turn: Turn, n: int, runs: seq<seq<Activity>>, goals: set<Id>): seq<EntryView>
    requires 0 <= n <= |turn.items| && |runs| == |turn.items| + 1
  {
    if n == 0 then []
    else
      RawUpTo(turn, n - 1, runs, goals)
      + RawFor(turn.items[n - 1], turn, runs[n - 1], IsGoal(turn, n - 1, goals))
  }

  function Complete(v: EntryView, turn: Turn, trailing: seq<Activity>, isLast: bool): EntryView {
    if v.UserView? then v
    else v.(activities := v.activities + (if isLast then trailing else []),
            status := turn.status, durationMs := turn.durationMs, active := Unfinished(turn) && isLast)
  }

  /** Complete every assistant entry; the last one, unless `later`, takes the trailing activities. */
  function CompleteAll(raw: seq<EntryView>, turn: Turn, trailing: seq<Activity>, later: bool): (r: seq<EntryView>)
    ensures |r| == |raw|
  {
    if raw == [] then []
    else
      var front, v := raw[..|raw| - 1], raw[|raw| - 1];
      CompleteAll(front, turn, trailing, later || v.AssistantView?) + [Complete(v, turn, trailing, !later)]
  }

  predicate NoReplyAfter(raw: seq<EntryView>, i: int) {
    forall j :: 0 <= i < j < |raw| ==> raw[j].UserView?
  }

  lemma {:induction false} CompleteAllAt(raw: seq<EntryView>, turn: Turn, trailing: seq<Activity>, later: bool, i: int)
    requires 0 <= i < |raw|
    ensures CompleteAll(raw, turn, trailing, later)[i]
            == Complete(raw[i], turn, trailing, !later && NoReplyAfter(raw, i))
  {
    var front, v := raw[..|raw| - 1], raw[|raw| - 1];
    if i < |front| {
      CompleteAllAt(front, turn, trailing, later || v.AssistantView?, i);
      assert NoReplyAfter(raw, i) <==> NoReplyAfter(front, i) && v.UserView?;
    }
  }

  lemma {:induction false} CompleteAllAppend(raw: seq<EntryView>, v: EntryView, turn: Turn, trailing: seq<Activity>,
                                             later: bool)
    ensures CompleteAll(raw + [v], turn, trailing, later)
         == CompleteAll(raw, turn, trailing, later || v.AssistantView?) + [Complete(v, turn, trailing, !later)]
  {
    assert (raw + [v])[..|raw|] == raw;
  }

  /** Completing the entry of one item, and those before it, adds its specified entry. */
  lemma {:induction false} CompletedEntry(front: seq<EntryView>, item: Item, turn: Turn, run: seq<Activity>,
                                          trailing: seq<Activity>, later: bool, isLast: bool, goal: bool)
    requires item.AgentMessage? ==> isLast == !later
    ensures CompleteAll(front + RawFor(item, turn, run, goal), turn, trailing, later)
         == CompleteAll(front, turn, trailing, later || item.AgentMessage?)
            + EntryFor(item, turn, run, trailing, isLast, goal)
  {
    var raw := RawFor(item, turn, run, goal);
    if raw != [] {
      assert raw == [raw[0]];
      CompleteAllAppend(front, raw[0], turn, trailing, later);
    } else {
      assert front + raw == front;
    }
  }

  /** Completing the entries of a prefix gives the specified entries of that prefix. */
  lemma {:induction false} CompletedPrefix(turn: Turn, n: int, runs: seq<seq<Activity>>, last: int, goals: set<Id>)
    requires 0 <= n <= |turn.items| && |runs| == |turn.items| + 1
    requires last == PrevAgent(turn.items, |turn.items|)
    ensures CompleteAll(RawUpTo(turn, n, runs, goals), turn, runs[|turn.items|], last >= n)
         == EntriesUpTo(turn, n, runs, last, goals)
  {
    if n > 0 {
      var k := n - 1;
      CompletedPrefix(turn, k, runs, last, goals);
      assert RawUpTo(turn, n, runs, goals)
        == RawUpTo(turn, k, runs, goals) + RawFor(turn.items[k], turn, runs[k], IsGoal(turn, k, goals));
      CompletedEntry(RawUpTo(turn, k, runs, goals), turn.items[k], turn, runs[k],
                     runs[|turn.items|], last >= n, k == last, IsGoal(turn, k, goals));
    }
  }

  // ----- the imperative transcript -----

  class AssistantEntry {
    const id: Id
    const turnId: Id
    const text: string
    const startedAtMs: Option<int>
    var activities: seq<Activity>
    var durationMs: Option<int>
    var status: Option<TurnStatus>
    var active: bool

    constructor (id: Id, turn: Turn, text: string, activities: seq<Activity>)
      ensures View() == AssistantView(id, turn.id, text, activities, None, turn.startedAtMs, turn.status, false)
    {
      this.id, this.turnId, this.text, this.startedAtMs := id, turn.id, text, turn.startedAtMs;
      this.activities, this.durationMs, this.status, this.active := activities, None, turn.status, false;
    }

    function View(): EntryView
      reads this
    {
      AssistantView(id, turnId, text, activities, durationMs, startedAtMs, status, active)
    }
  }

  datatype Slot = UserSlot(view: EntryView) | AssistantSlot(entry: AssistantEntry)

  ghost function Objects(slots: seq<Slot>): set<AssistantEntry> {
    set s | s in slots && s.AssistantSlot? :: s.entry
  }

  /** The assistant entries of a list, in order. */
  ghost function Replies(slots: seq<Slot>): (r: seq<AssistantEntry>)
    ensures forall i :: 0 <= i < |r| ==> AssistantSlot(r[i]) in slots
    ensures forall i :: 0 <= i < |slots| && slots[i].AssistantSlot? ==> slots[i].entry in r
  {
    if slots == [] then []
    else
      var s := slots[|slots| - 1];
      Replies(slots[..|slots| - 1]) + if s.AssistantSlot? then [s.entry] else []
  }

  ghost function ViewOf(s: Slot): EntryView
    reads if s.AssistantSlot? then {s.entry} else {}
  {
    if s.AssistantSlot? then s.entry.View() else s.view
  }

  ghost function Views(slots: seq<Slot>): (r: seq<EntryView>)
    reads Objects(slots)
    ensures |r| == |slots|
    ensures forall i :: 0 <= i < |slots| ==> r[i] == ViewOf(slots[i])
  {
    seq(|slots|, i requires 0 <= i < |slots| reads Objects(slots) => ViewOf(slots[i]))
  }

  /** The last reply is the assistant entry that no other assistant entry follows. */
  lemma {:induction false} LastReply(slots: seq<Slot>, i: int)
    requires Distinct(Replies(slots))
    requires 0 <= i < |slots| && slots[i].AssistantSlot?
    ensures Replies(slots) != []
    ensures slots[i].entry == Replies(slots)[|Replies(slots)| - 1]
       <==> forall j :: i < j < |slots| ==> slots[j].UserSlot?
  {
    var front, s := slots[..|slots| - 1], slots[|slots| - 1];
    var before := Replies(front);
    assert Replies(slots) == before + if s.AssistantSlot? then [s.entry] else [];
    if i < |front| {
      assert front[i] == slots[i];
      assert slots[i].entry in before;
      if s.UserSlot? {
        assert Replies(slots) == before;
        LastReply(front, i);
        assert forall j :: i < j < |front| ==> slots[j] == front[j];
      } else {
        var m :| 0 <= m < |before| && before[m] == slots[i].entry;
        assert Replies(slots)[m] != Replies(slots)[|before|] == s.entry;
        assert slots[|front|].AssistantSlot?;
      }
    }
  }

  /** Upsert one activity in place, as the inner search-and-overwrite does. */
  method RecordActivity(activities: seq<Activity>, a: Activity) returns (r: seq<Activity>)
    ensures r == Upsert(activities, a, ActivityKey)
  {
    var index := 0;
    while index < |activities| && activities[index].id != a.id
      invariant 0 <= index <= |activities|
      invariant forall i :: 0 <= i < index ==> activities[i].id != a.id
    {
      index := index + 1;
    }
    ghost var k := IndexOf(activities, a.id, ActivityKey);
    if index < |activities| {
      r := activities[index := a];
    } else {
      r := activities + [a];
    }
  }

  /** Complete the entries of a turn through the list that aliases them. */
  method CompleteReplies(replies: seq<AssistantEntry>, turn: Turn, trailing: seq<Activity>)
    requires replies != [] && Distinct(replies)
    modifies replies
    ensures forall i :: 0 <= i < |replies| ==>
      replies[i].View() == Complete(old(replies[i].View()), turn, trailing, i == |replies| - 1)
  {
    var last := replies[|replies| - 1];
    last.activities := last.activities + trailing;
    var inProgress := turn.status == None || turn.status == Some(InProgress);
    for n := 0 to |replies|
      invariant forall i :: 0 <= i < |replies| ==>
        replies[i].activities == old(replies[i].activities) + (if i == |replies| - 1 then trailing else [])
      invariant forall i :: 0 <= i < n ==>
        replies[i].View() == Complete(old(replies[i].View()), turn, trailing, i == |replies| - 1)
      invariant forall i :: n <= i < |replies| ==>
        && replies[i].durationMs == old(replies[i].durationMs)
        && replies[i].status == old(replies[i].status)
        && replies[i].active == old(replies[i].active)
    {
      var entry := replies[n];
      entry.status := turn.status;
      entry.durationMs := turn.durationMs;
      entry.active := inProgress && entry == last;
    }
  }

  lemma {:induction false} DedupRunAppend(run: seq<Item>, item: Item, render: Render)
    ensures Dedup(Activities(run + [item], render), ActivityKey)
         == var a := ActivityOf(item, render);
            var d := Dedup(Activities(run, render), ActivityKey);
            if a.Some? then Upsert(d, a.value, ActivityKey) else d
  {
    var a := ActivityOf(item, render);
    assert (run + [item])[..|run|] == run;
    if a.Some? {
      assert Activities(run + [item], render) == Activities(run, render) + [a.value];
      DedupAppend(Activities(run, render), a.value, ActivityKey);
    } else {
      assert Activities(run + [item], render) == Activities(run, render) + [] == Activities(run, render);
    }
  }

  /** `runs` lists the runs of a turn as its items unfold them one by one. */
  ghost predicate RunsOf(items: seq<Item>, render: Render, runs: seq<seq<Activity>>) {
    && |runs| == |items| + 1
    && runs[0] == []
    && forall k :: 0 <= k < |items| ==> RunStep(items, render, runs, k)
  }

  ghost predicate RunStep(items: seq<Item>, render: Render, runs: seq<seq<Activity>>, k: int)
    requires 0 <= k < |items| && |runs| == |items| + 1
  {
    runs[k + 1] == NextRun(runs[k], items[k], render)
  }

  lemma {:induction false} RunsUnfold(items: seq<Item>, render: Render)
    ensures RunsOf(items, render, Runs(items, render))
  {
    if items != [] {
      var front := items[..|items| - 1];
      RunsUnfold(front, render);
      forall k | 0 <= k < |items|
        ensures RunStep(items, render, Runs(items, render), k)
      {
        if k < |front| {
          assert RunStep(front, render, Runs(front, render), k);
        }
      }
    }
  }

  lemma {:induction false} RunBeforeStart(items: seq<Item>, render: Render)
    ensures RunBefore(items, 0, render) == []
  {
    assert RunItems(items, 0) == [];
  }

  lemma {:induction false} RunsMeaningStep(items: seq<Item>, render: Render, runs: seq<seq<Activity>>, k: int)
    requires 0 <= k < |items| && |runs| == |items| + 1 && RunStep(items, render, runs, k)
    requires runs[k] == RunBefore(items, k, render)
    ensures runs[k + 1] == RunBefore(items, k + 1, render)
  {
    RunBeforeStep(items, k, render);
  }

  lemma {:induction false} RunsMeaningAt(items: seq<Item>, render: Render, runs: seq<seq<Activity>>, k: int)
    requires RunsOf(items, render, runs)
    requires 0 <= k <= |items|
    ensures runs[k] == RunBefore(items, k, render)
    decreases k
  {
    if k == 0 {
      RunBeforeStart(items, render);
    } else {
      RunsMeaningAt(items, render, runs, k - 1);
      RunsMeaningStep(items, render, runs, k - 1);
    }
  }

  /** Each run is the activities since the last agent message, de-duplicated by identifier: first
      position, last value. */
  lemma {:induction false} RunsMeaning(items: seq<Item>, render: Render, k: int)
    requires 0 <= k <= |items|
    ensures Runs(items, render)[k] == RunBefore(items, k, render)
  {
    RunsUnfold(items, render);
    RunsMeaningAt(items, render, Runs(items, render), k);
  }

  /** One more item: an agent message ends the run, an activity is upserted into it. */
  lemma {:induction false} RunBeforeStep(items: seq<Item>, k: int, render: Render)
    requires 0 <= k < |items|
    ensures RunBefore(items, k + 1, render) == NextRun(RunBefore(items, k, render), items[k], render)
  {
    RunItemsStep(items, k);
    if !items[k].AgentMessage? {
      DedupRunAppend(RunItems(items, k), items[k], render);
    }
  }

  lemma {:induction false} RunItemsStep(items: seq<Item>, k: int)
    requires 0 <= k < |items|
    ensures RunItems(items, k + 1) == if items[k].AgentMessage? then [] else RunItems(items, k) + [items[k]]
  {
  }

  /** What one item adds to a turn: at most one entry, and a new run of activities. */
  method CollectItem(item: Item, turn: Turn, render: Render, activities: seq<Activity>, isGoal: bool)
    returns (added: seq<Slot>, reply: seq<AssistantEntry>, run: seq<Activity>)
    ensures fresh(Objects(added)) && reply == Replies(added)
    ensures Views(added) == RawFor(item, turn, activities, isGoal)
    ensures forall i :: 0 <= i < |added| && added[i].UserSlot? ==> added[i].view.UserView?
    ensures run == NextRun(activities, item, render)
  {
    added, reply, run := [], [], activities;
    match item {
      case UserMessage(id, content) =>
        added := [UserSlot(UserView(id, TextOf(content), ImagesOf(content), isGoal))];
        assert added[..0] == [];
      case AgentMessage(id, text, _) =>
        var entry := new AssistantEntry(id, turn, text, activities);
        added, reply, run := [AssistantSlot(entry)], [entry], [];
        assert added[..0] == [];
      case WorkItem(_, _) =>
        var a := ActivityOf(item, render);
        if a.Some? {
          run := RecordActivity(activities, a.value);
        }
    }
  }

  /** Growing a list by one slot grows its views and its replies. */
  lemma {:induction false} GrowSlots(slots: seq<Slot>, added: seq<Slot>)
    requires |added| <= 1
    ensures Views(slots + added) == Views(slots) + Views(added)
    ensures Objects(slots + added) == Objects(slots) + Objects(added)
    ensures Replies(slots + added) == Replies(slots) + Replies(added)
  {
    if added == [] {
      assert slots + added == slots;
    } else {
      assert (slots + added)[..|slots|] == slots;
      assert added[..0] == [];
    }
  }

  /** Entries of a well-formed list: user slots hold user views, and no entry object appears twice. */
  ghost predicate ValidSlots(slots: seq<Slot>) {
    && Distinct(Replies(slots))
    && forall i :: 0 <= i < |slots| && slots[i].UserSlot? ==> slots[i].view.UserView?
  }

  lemma {:induction false} GrowValid(slots: seq<Slot>, added: seq<Slot>)
    requires ValidSlots(slots) && |added| <= 1
    requires Objects(slots) !! Objects(added)
    requires forall i :: 0 <= i < |added| && added[i].UserSlot? ==> added[i].view.UserView?
    ensures ValidSlots(slots + added)
  {
    GrowSlots(slots, added);
    if added != [] && added[0].AssistantSlot? {
      assert added[..0] == [];
      assert Replies(added) == [added[0].entry];
      forall i | 0 <= i < |Replies(slots)|
        ensures Replies(slots)[i] != added[0].entry
      {
        assert AssistantSlot(Replies(slots)[i]) in slots;
        assert Replies(slots)[i] in Objects(slots);
        assert added[0] in added;
      }
    }
  }

  lemma HasUserStep(items: seq<Item>, k: int)
    requires 0 <= k < |items|
    ensures HasUserBefore(items, k + 1) <==> HasUserBefore(items, k) || items[k].UserMessage?
  {
  }

  /** `slots` holds the entries of the first `n` items of a turn. */
  ghost predicate Collected(slots: seq<Slot>, turn: Turn, n: int, runs: seq<seq<Activity>>, goals: set<Id>)
    requires 0 <= n <= |turn.items| && |runs| == |turn.items| + 1
    reads Objects(slots)
  {
    ValidSlots(slots) && Views(slots) == RawUpTo(turn, n, runs, goals)
  }

  lemma {:induction false} CollectedStep(slots: seq<Slot>, added: seq<Slot>, turn: Turn, n: int,
                                         runs: seq<seq<Activity>>, goals: set<Id>)
    requires 0 <= n < |turn.items| && |runs| == |turn.items| + 1
    requires Collected(slots, turn, n, runs, goals)
    requires Objects(slots) !! Objects(added)
    requires Views(added) == RawFor(turn.items[n], turn, runs[n], IsGoal(turn, n, goals))
    requires forall i :: 0 <= i < |added| && added[i].UserSlot? ==> added[i].view.UserView?
    ensures Collected(slots + added, turn, n + 1, runs, goals)
    ensures Objects(slots + added) == Objects(slots) + Objects(added)
    ensures Replies(slots + added) == Replies(slots) + Replies(added)
  {
    GrowSlots(slots, added);
    GrowValid(slots, added);
  }

  /** What has been gathered from the first `n` items of a turn. `replies` aliases the assistant entries
      among `slots`. */
  ghost predicate Gathered(slots: seq<Slot>, replies: seq<AssistantEntry>, activities: seq<Activity>, goalMarked: bool,
                           turn: Turn, n: int, runs: seq<seq<Activity>>, goals: set<Id>)
    requires 0 <= n <= |turn.items| && |runs| == |turn.items| + 1
    reads Objects(slots)
  {
    && Collected(slots, turn, n, runs, goals) && replies == Replies(slots) && activities == runs[n]
    && (goalMarked <==> turn.id in goals && HasUserBefore(turn.items, n))
  }

  /** Gather one more item. */
  method CollectNext(turn: Turn, n: nat, render: Render, goals: set<Id>, ghost runs: seq<seq<Activity>>,
                     slots: seq<Slot>, replies: seq<AssistantEntry>, activities: seq<Activity>, goalMarked: bool)
    returns (newSlots: seq<Slot>, newReplies: seq<AssistantEntry>, newActivities: seq<Activity>, newGoalMarked: bool)
    requires n < |turn.items| && RunsOf(turn.items, render, runs)
    requires Gathered(slots, replies, activities, goalMarked, turn, n, runs, goals)
    ensures fresh(Objects(newSlots) - Objects(slots))
    ensures Gathered(newSlots, newReplies, newActivities, newGoalMarked, turn, n + 1, runs, goals)
  {
    var item := turn.items[n];
    var isGoal := turn.id in goals && !goalMarked;
    var added, reply, run := CollectItem(item, turn, render, activities, isGoal);
    assert RunStep(turn.items, render, runs, n);
    HasUserStep(turn.items, n);
    CollectedStep(slots, added, turn, n, runs, goals);
    newSlots, newReplies, newActivities := slots + added, replies + reply, run;
    newGoalMarked := goalMarked || (isGoal && item.UserMessage?);
  }

  /** Walk the items of a turn, creating entries and gathering the run of activities. */
  method CollectTurn(turn: Turn, render: Render, goals: set<Id>, ghost runs: seq<seq<Activity>>)
    returns (slots: seq<Slot>, replies: seq<AssistantEntry>, activities: seq<Activity>)
    requires RunsOf(turn.items, render, runs)
    ensures fresh(Objects(slots)) && Collected(slots, turn, |turn.items|, runs, goals)
    ensures replies == Replies(slots)
    ensures activities == runs[|turn.items|]
  {
    slots, replies, activities := [], [], [];
    var goalMarked := false;
    for n := 0 to |turn.items|
      invariant fresh(Objects(slots)) && Gathered(slots, replies, activities, goalMarked, turn, n, runs, goals)
    {
      slots, replies, activities, goalMarked :=
        CollectNext(turn, n, render, goals, runs, slots, replies, activities, goalMarked);
    }
  }

  /** Complete the entries of a turn in place, through the list that aliases them. */
  method CompleteTurn(slots: seq<Slot>, replies: seq<AssistantEntry>, turn: Turn, trailing: seq<Activity>)
    requires ValidSlots(slots) && replies == Replies(slots) && replies != []
    modifies Objects(slots)
    ensures Views(slots) == CompleteAll(old(Views(slots)), turn, trailing, false)
  {
    ghost var raw := Views(slots);
    RepliesAreObjects(slots);
    CompleteReplies(replies, turn, trailing);
    forall i | 0 <= i < |slots|
      ensures Views(slots)[i] == CompleteAll(raw, turn, trailing, false)[i]
    {
      CompleteAllAt(raw, turn, trailing, false, i);
      if slots[i].AssistantSlot? {
        LastReply(slots, i);
        var m :| 0 <= m < |replies| && replies[m] == slots[i].entry;
        assert NoReplyAfter(raw, i) <==> forall j :: i < j < |slots| ==> slots[j].UserSlot?;
      }
    }
  }

  lemma RepliesAreObjects(slots: seq<Slot>)
    ensures forall i :: 0 <= i < |Replies(slots)| ==> Replies(slots)[i] in Objects(slots)
  {
    forall i | 0 <= i < |Replies(slots)|
      ensures Replies(slots)[i] in Objects(slots)
    {
      assert AssistantSlot(Replies(slots)[i]) in slots;
    }
  }

  lemma {:induction false} CompleteUsers(raw: seq<EntryView>, turn: Turn, trailing: seq<Activity>, later: bool)
    requires AllUsers(raw)
    ensures CompleteAll(raw, turn, trailing, later) == raw
  {
    forall i | 0 <= i < |raw|
      ensures CompleteAll(raw, turn, trailing, later)[i] == raw[i]
    {
      CompleteAllAt(raw, turn, trailing, later, i);
    }
  }

  predicate AllUsers(raw: seq<EntryView>) {
    forall i :: 0 <= i < |raw| ==> raw[i].UserView?
  }

  lemma AllUsersConcat(a: seq<EntryView>, b: seq<EntryView>)
    ensures AllUsers(a + b) <==> AllUsers(a) && AllUsers(b)
  {
    if AllUsers(a + b) {
      forall i | 0 <= i < |a|
        ensures a[i].UserView?
      {
        assert (a + b)[i] == a[i];
      }
      forall i | 0 <= i < |b|
        ensures b[i].UserView?
      {
        assert (a + b)[|a| + i] == b[i];
      }
    }
  }

  /** Without agent messages, and only then, every entry of a turn is a user entry. */
  lemma {:induction false} RawKinds(turn: Turn, n: int, runs: seq<seq<Activity>>, goals: set<Id>)
    requires 0 <= n <= |turn.items| && |runs| == |turn.items| + 1
    ensures AllUsers(RawUpTo(turn, n, runs, goals)) <==> PrevAgent(turn.items, n) < 0
  {
    if n > 0 {
      RawKinds(turn, n - 1, runs, goals);
      var raw := RawFor(turn.items[n - 1], turn, runs[n - 1], IsGoal(turn, n - 1, goals));
      AllUsersConcat(RawUpTo(turn, n - 1, runs, goals), raw);
      assert turn.items[n - 1].AgentMessage? ==> raw[0].AssistantView?;
    }
  }

  function SummaryFor(turn: Turn): EntryView {
    AssistantView(turn.id + "-summary", turn.id, "", [], None, turn.startedAtMs, turn.status, false)
  }

  lemma CompletedWithReplies(turn: Turn, render: Render, goals: set<Id>, raw: seq<EntryView>)
    requires raw == RawUpTo(turn, |turn.items|, Runs(turn.items, render), goals)
    requires PrevAgent(turn.items, |turn.items|) >= 0
    ensures CompleteAll(raw, turn, Runs(turn.items, render)[|turn.items|], false) == TurnEntries(turn, render, goals)
  {
    var n := |turn.items|;
    var runs := Runs(turn.items, render);
    var last := PrevAgent(turn.items, n);
    CompletedPrefix(turn, n, runs, last, goals);
    assert EntriesUpTo(turn, n, runs, last, goals) + [] == EntriesUpTo(turn, n, runs, last, goals);
  }

  lemma CompletedWithSummary(turn: Turn, render: Render, goals: set<Id>, raw: seq<EntryView>)
    requires raw == RawUpTo(turn, |turn.items|, Runs(turn.items, render), goals)
    requires PrevAgent(turn.items, |turn.items|) < 0 && AllUsers(raw)
    ensures CompleteAll(raw + [SummaryFor(turn)], turn, Runs(turn.items, render)[|turn.items|], false)
         == TurnEntries(turn, render, goals)
  {
    var n := |turn.items|;
    var runs := Runs(turn.items, render);
    CompletedPrefix(turn, n, runs, PrevAgent(turn.items, n), goals);
    CompleteUsers(raw, turn, runs[n], false);
    CompleteUsers(raw, turn, runs[n], true);
    CompleteAllAppend(raw, SummaryFor(turn), turn, runs[n], false);
    assert [] + runs[n] == runs[n];
  }

  /** Completing the collected entries, with a summary when there is no reply, gives the turn's entries. */
  lemma CompletedTurn(turn: Turn, render: Render, goals: set<Id>, raw: seq<EntryView>)
    requires raw == RawUpTo(turn, |turn.items|, Runs(turn.items, render), goals)
    ensures CompleteAll(WithSummary(raw, turn), turn, Runs(turn.items, render)[|turn.items|], false)
         == TurnEntries(turn, render, goals)
  {
    RawKinds(turn, |turn.items|, Runs(turn.items, render), goals);
    if AllUsers(raw) {
      CompletedWithSummary(turn, render, goals, raw);
    } else {
      CompletedWithReplies(turn, render, goals, raw);
    }
  }

  function WithSummary(raw: seq<EntryView>, turn: Turn): seq<EntryView> {
    if AllUsers(raw) then raw + [SummaryFor(turn)] else raw
  }

  lemma OneSlot(added: seq<Slot>)
    requires |added| == 1 && added[0].AssistantSlot?
    ensures Views(added) == [added[0].entry.View()] && Replies(added) == [added[0].entry]
    ensures Objects(added) == {added[0].entry}
  {
    assert added[..0] == [];
  }

  /** Add a summary entry to a turn without replies. */
  method AddSummary(turn: Turn, slots: seq<Slot>, replies: seq<AssistantEntry>)
    returns (newSlots: seq<Slot>, newReplies: seq<AssistantEntry>)
    requires ValidSlots(slots) && replies == Replies(slots)
    ensures fresh(Objects(newSlots) - Objects(slots)) && ValidSlots(newSlots) && newReplies == Replies(newSlots) != []
    ensures Views(newSlots) == WithSummary(Views(slots), turn)
  {
    SlotKinds(slots);
    if |replies| > 0 {
      return slots, replies;
    }
    var summary := new AssistantEntry(turn.id + "-summary", turn, "", []);
    var added := [AssistantSlot(summary)];
    OneSlot(added);
    GrowSlots(slots, added);
    GrowValid(slots, added);
    return slots + added, [summary];
  }

  /** The entries of one turn. */
  method AppendTurn(turn: Turn, render: Render, goals: set<Id>) returns (slots: seq<Slot>)
    ensures fresh(Objects(slots))
    ensures Views(slots) == TurnEntries(turn, render, goals)
  {
    ghost var runs := Runs(turn.items, render);
    RunsUnfold(turn.items, render);
    var replies, activities;
    slots, replies, activities := CollectTurn(turn, render, goals, runs);
    CompletedTurn(turn, render, goals, Views(slots));
    slots, replies := AddSummary(turn, slots, replies);
    CompleteTurn(slots, replies, turn, activities);
  }

  /** A list has replies exactly when some view is an assistant view. */
  lemma {:induction false} SlotKinds(slots: seq<Slot>)
    requires ValidSlots(slots)
    ensures Replies(slots) == [] <==> AllUsers(Views(slots))
  {
    if Replies(slots) != [] {
      var i :| 0 <= i < |slots| && slots[i] == AssistantSlot(Replies(slots)[0]);
      assert Views(slots)[i].AssistantView?;
    } else {
      forall i | 0 <= i < |slots|
        ensures Views(slots)[i].UserView?
      {
        if slots[i].AssistantSlot? {
          assert slots[i].entry in Replies(slots);
        }
      }
    }
  }

  lemma Concatenated(a: seq<Slot>, b: seq<Slot>)
    ensures Views(a + b) == Views(a) + Views(b) && Objects(a + b) == Objects(a) + Objects(b)
  {
  }

  /** The transcript of all turns, built by completing shared entry objects in place. */
  method BuildTranscript(turns: seq<Turn>, render: Render, goals: set<Id>) returns (entries: seq<Slot>)
    ensures fresh(Objects(entries))
    ensures Views(entries) == TranscriptOf(turns, render, goals)
  {
    entries := [];
    for n := 0 to |turns|
      invariant fresh(Objects(entries))
      invariant Views(entries) == TranscriptOf(turns[..n], render, goals)
    {
      var added := AppendTurn(turns[n], render, goals);
      assert turns[..n + 1][..n] == turns[..n];
      Concatenated(entries, added);
      entries := entries + added;
    }
    assert turns[..|turns|] == turns;
  }
}
