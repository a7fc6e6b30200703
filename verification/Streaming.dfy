/** The turns of the desktop session, folded from the stream of server events. */
module Streaming {
  import opened Wrappers
  import opened Keyed

  datatype TurnStatus = Completed | Interrupted | Failed | InProgress

  datatype UserInput = TextInput(text: string) | LocalImage(path: string) | Image(url: string) | OtherInput(ref: string)

  /** A thread item. `extra` stands for the agent-message fields that streaming never reads;
      `payload` for everything of the remaining kinds of item. */
  datatype Item =
    | UserMessage(id: Id, content: seq<UserInput>)
    | AgentMessage(id: Id, text: string, extra: Option<string>)
    | WorkItem(id: Id, payload: string)

  datatype Turn = Turn(id: Id, items: seq<Item>, status: Option<TurnStatus>,
                       durationMs: Option<int>, startedAtMs: Option<int>)

  /** The reducer actions that come from the event stream. */
  datatype Event =
    | ItemEvent(turnId: Id, item: Item)
    | DeltaEvent(turnId: Id, itemId: Id, delta: string)
    | TurnStarted(turnId: Id, at: Option<int>)
    | TurnCompleted(turnId: Id, duration: Option<int>, outcome: Option<TurnStatus>)

  const ItemKey: Item -> Id := (i: Item) => i.id
  const TurnKey: Turn -> Id := (t: Turn) => t.id

  function ItemIds(items: seq<Item>): seq<Id> { Keys(items, ItemKey) }

  function TurnIds(turns: seq<Turn>): seq<Id> { Keys(turns, TurnKey) }

  /** Turn identifiers are distinct, and so are the item identifiers of each turn. */
  ghost predicate WellFormed(turns: seq<Turn>) {
    && Distinct(TurnIds(turns))
    && forall i :: 0 <= i < |turns| ==> Distinct(ItemIds(turns[i].items))
  }

  // ----- the reducer -----

  function UpsertItem(items: seq<Item>, item: Item): seq<Item> {
    Upsert(items, item, ItemKey)
  }

  function FreshTurn(id: Id): Turn { Turn(id, [], None, None, None) }

  function UpsertTurn(turns: seq<Turn>, id: Id): seq<Turn> {
    if Find(turns, id, TurnKey).Some? then turns else turns + [FreshTurn(id)]
  }

  function Extended(item: Item, delta: string): Item {
    if item.AgentMessage? then item.(text := item.text + delta) else item
  }

  function AppendDelta(items: seq<Item>, id: Id, delta: string): seq<Item> {
    if IndexOf(items, id, ItemKey) >= 0 then
      seq(|items|, i requires 0 <= i < |items| =>
        if items[i].id == id then Extended(items[i], delta) else items[i])
    else
      items + [AgentMessage(id, delta, None)]
  }

  /** `turns.map(entry => entry.id === id ? f(entry) : entry)`. */
  function MapTurn(turns: seq<Turn>, id: Id, f: Turn -> Turn): (r: seq<Turn>)
    ensures |r| == |turns|
    ensures forall i :: 0 <= i < |turns| ==> r[i] == if turns[i].id == id then f(turns[i]) else turns[i]
  {
    seq(|turns|, i requires 0 <= i < |turns| => if turns[i].id == id then f(turns[i]) else turns[i])
  }

  function Step(turns: seq<Turn>, e: Event): seq<Turn> {
    match e
    case ItemEvent(t, item) =>
      MapTurn(UpsertTurn(turns, t), t, (u: Turn) => u.(items := UpsertItem(u.items, item)))
    case DeltaEvent(t, id, delta) =>
      var known := UpsertTurn(turns, t);
      var found := Find(known, t, TurnKey);
      if found.None? then known
      else
        var items := AppendDelta(found.value.items, id, delta);
        MapTurn(known, t, (u: Turn) => u.(items := items))
    case TurnStarted(t, at) =>
      MapTurn(UpsertTurn(turns, t), t, (u: Turn) => u.(startedAtMs := at, status := Some(InProgress)))
    case TurnCompleted(t, duration, outcome) =>
      MapTurn(turns, t, (u: Turn) => u.(status := outcome, durationMs := duration))
  }

  function Run(turns: seq<Turn>, log: seq<Event>): seq<Turn>
    decreases |log|
  {
    if log == [] then turns
    else Step(Run(turns, log[..|log| - 1]), log[|log| - 1])
  }

  // ----- what the log alone says -----

  /** The turn identifiers of the events that create a missing turn. */
  function TurnMentions(log: seq<Event>): seq<Id> {
    if log == [] then []
    else
      var e := log[|log| - 1];
      TurnMentions(log[..|log| - 1]) + if e.TurnCompleted? then [] else [e.turnId]
  }

  /** The events of one turn. A completion that precedes every mention of an unknown turn is void. */
  function EventsOf(log: seq<Event>, t: Id, known: bool): (r: seq<Event>)
    ensures forall i :: 0 <= i < |r| ==> r[i].turnId == t
  {
    if log == [] then []
    else
      var front := log[..|log| - 1];
      var e := log[|log| - 1];
      var r := EventsOf(front, t, known);
      if e.turnId != t || (e.TurnCompleted? && !known && t !in TurnMentions(front)) then r else r + [e]
  }

  /** The item identifiers that a turn's events name, in order. */
  function ItemMentions(log: seq<Event>): seq<Id> {
    if log == [] then []
    else
      var e := log[|log| - 1];
      ItemMentions(log[..|log| - 1])
      + (if e.ItemEvent? then [e.item.id] else if e.DeltaEvent? then [e.itemId] else [])
  }

  /** The last snapshot of an item. */
  function LastSnapshot(log: seq<Event>, id: Id): (o: Option<Item>)
    ensures o.Some? ==> o.value.id == id
  {
    if log == [] then None
    else
      var e := log[|log| - 1];
      if e.ItemEvent? && e.item.id == id then Some(e.item) else LastSnapshot(log[..|log| - 1], id)
  }

  /** The concatenation of the deltas to an item that follow its last snapshot. */
  function LaterDeltas(log: seq<Event>, id: Id): string {
    if log == [] then ""
    else
      var e := log[|log| - 1];
      if e.ItemEvent? && e.item.id == id then ""
      else LaterDeltas(log[..|log| - 1], id) + if e.DeltaEvent? && e.itemId == id then e.delta else ""
  }

  /** The item that was first mentioned as `initial`, or by the log: its last snapshot followed, for an
      agent message, by every later delta. A message that only deltas name starts out empty. */
  function ProjectItem(initial: Option<Item>, log: seq<Event>, id: Id): Item {
    var last := LastSnapshot(log, id);
    var base :=
      if last.Some? then last.value
      else if initial.Some? then initial.value
      else AgentMessage(id, "", None);
    Extended(base, LaterDeltas(log, id))
  }

  function ProjectItems(items: seq<Item>, log: seq<Event>): seq<Item> {
    var ids := FirstSeen(ItemIds(items) + ItemMentions(log));
    seq(|ids|, i requires 0 <= i < |ids| => ProjectItem(Find(items, ids[i], ItemKey), log, ids[i]))
  }

  function LastStart(log: seq<Event>, initial: Option<int>): Option<int> {
    if log == [] then initial
    else if log[|log| - 1].TurnStarted? then log[|log| - 1].at
    else LastStart(log[..|log| - 1], initial)
  }

  function LastDuration(log: seq<Event>, initial: Option<int>): Option<int> {
    if log == [] then initial
    else if log[|log| - 1].TurnCompleted? then log[|log| - 1].duration
    else LastDuration(log[..|log| - 1], initial)
  }

  function LastStatus(log: seq<Event>, initial: Option<TurnStatus>): Option<TurnStatus> {
    if log == [] then initial
    else
      var e := log[|log| - 1];
      if e.TurnStarted? then Some(InProgress)
      else if e.TurnCompleted? then e.outcome
      else LastStatus(log[..|log| - 1], initial)
  }

  function ProjectTurn(initial: Option<Turn>, log: seq<Event>, t: Id): Turn {
    var base := if initial.Some? then initial.value else FreshTurn(t);
    var mine := EventsOf(log, t, initial.Some?);
    Turn(t, ProjectItems(base.items, mine), LastStatus(mine, base.status),
         LastDuration(mine, base.durationMs), LastStart(mine, base.startedAtMs))
  }

  /** The view that the log describes: turns in first-mention order, each projected on its own. */
  function Project(turns: seq<Turn>, log: seq<Event>): seq<Turn> {
    var ids := FirstSeen(TurnIds(turns) + TurnMentions(log));
    seq(|ids|, i requires 0 <= i < |ids| => ProjectTurn(Find(turns, ids[i], TurnKey), log, ids[i]))
  }

  // ----- one event, seen from one turn -----

  /** An event applied to the items of its own turn. */
  function StepItems(items: seq<Item>, e: Event): seq<Item> {
    match e
    case ItemEvent(_, item) => UpsertItem(items, item)
    case DeltaEvent(_, id, delta) => AppendDelta(items, id, delta)
    case _ => items
  }

  function StepTurn(u: Turn, e: Event): Turn {
    match e
    case TurnStarted(_, at) => u.(startedAtMs := at, status := Some(InProgress))
    case TurnCompleted(_, duration, outcome) => u.(status := outcome, durationMs := duration)
    case _ => u.(items := StepItems(u.items, e))
  }

  lemma {:induction false} UpsertTurnEffect(turns: seq<Turn>, t: Id)
    requires Distinct(TurnIds(turns))
    ensures TurnIds(UpsertTurn(turns, t)) == if t in TurnIds(turns) then TurnIds(turns) else TurnIds(turns) + [t]
    ensures Distinct(TurnIds(UpsertTurn(turns, t)))
    ensures forall k ::
      Find(UpsertTurn(turns, t), k, TurnKey)
      == if k == t && t !in TurnIds(turns) then Some(FreshTurn(t)) else Find(turns, k, TurnKey)
  {
    FindPresent(turns, t, TurnKey);
    if t !in TurnIds(turns) {
      UpsertEffect(turns, FreshTurn(t), TurnKey);
      assert IndexOf(turns, t, TurnKey) < 0;
      assert UpsertTurn(turns, t) == Upsert(turns, FreshTurn(t), TurnKey);
    }
  }

  lemma {:induction false} MapTurnEffect(turns: seq<Turn>, t: Id, f: Turn -> Turn)
    requires Distinct(TurnIds(turns))
    requires forall u :: f(u).id == u.id
    ensures TurnIds(MapTurn(turns, t, f)) == TurnIds(turns)
    ensures forall k ::
      Find(MapTurn(turns, t, f), k, TurnKey)
      == var o := Find(turns, k, TurnKey); if k == t && o.Some? then Some(f(o.value)) else o
  {
    var r := MapTurn(turns, t, f);
    forall k
      ensures Find(r, k, TurnKey)
        == var o := Find(turns, k, TurnKey); if k == t && o.Some? then Some(f(o.value)) else o
    {
      var i := IndexOf(turns, k, TurnKey);
      if i >= 0 {
        assert TurnKey(r[i]) == k;
        FindAt(r, i, TurnKey);
      } else {
        FindPresent(r, k, TurnKey);
        FindPresent(turns, k, TurnKey);
      }
    }
  }

  /** One event changes the turn it names and no other. */
  lemma {:induction false} StepEffect(turns: seq<Turn>, e: Event)
    requires Distinct(TurnIds(turns))
    ensures TurnIds(Step(turns, e))
         == if e.TurnCompleted? || e.turnId in TurnIds(turns) then TurnIds(turns) else TurnIds(turns) + [e.turnId]
    ensures Distinct(TurnIds(Step(turns, e)))
    ensures forall k ::
      Find(Step(turns, e), k, TurnKey)
      == var o := Find(turns, k, TurnKey);
         if k != e.turnId then o
         else if o.Some? then Some(StepTurn(o.value, e))
         else if e.TurnCompleted? then None
         else Some(StepTurn(FreshTurn(k), e))
  {
    FindPresent(turns, e.turnId, TurnKey);
    UpsertTurnEffect(turns, e.turnId);
    var known := UpsertTurn(turns, e.turnId);
    match e
    case ItemEvent(t, item) =>
      MapTurnEffect(known, t, (u: Turn) => u.(items := UpsertItem(u.items, item)));
    case DeltaEvent(t, id, delta) =>
      var found := Find(known, t, TurnKey);
      var items := AppendDelta(found.value.items, id, delta);
      MapTurnEffect(known, t, (u: Turn) => u.(items := items));
    case TurnStarted(t, at) =>
      MapTurnEffect(known, t, (u: Turn) => u.(startedAtMs := at, status := Some(InProgress)));
    case TurnCompleted(t, duration, outcome) =>
      MapTurnEffect(turns, t, (u: Turn) => u.(status := outcome, durationMs := duration));
  }

  // ----- one event, seen from one item -----

  lemma {:induction false} AppendDeltaEffect(items: seq<Item>, id: Id, delta: string)
    requires Distinct(ItemIds(items))
    ensures ItemIds(AppendDelta(items, id, delta))
         == if id in ItemIds(items) then ItemIds(items) else ItemIds(items) + [id]
    ensures Distinct(ItemIds(AppendDelta(items, id, delta)))
    ensures forall k ::
      Find(AppendDelta(items, id, delta), k, ItemKey)
      == var o := Find(items, k, ItemKey);
         if k != id then o
         else if o.Some? then Some(Extended(o.value, delta))
         else Some(AgentMessage(id, delta, None))
  {
    FindPresent(items, id, ItemKey);
    var i := IndexOf(items, id, ItemKey);
    if i < 0 {
      UpsertEffect(items, AgentMessage(id, delta, None), ItemKey);
      assert AppendDelta(items, id, delta) == Upsert(items, AgentMessage(id, delta, None), ItemKey);
    } else {
      var x := Extended(items[i], delta);
      UpsertEffect(items, x, ItemKey);
      assert AppendDelta(items, id, delta) == Upsert(items, x, ItemKey) by {
        assert ItemIds(items)[i] == id;
        assert forall j :: 0 <= j < |items| && j != i ==> ItemIds(items)[j] != id;
      }
    }
  }

  /** The identifiers of the projection grow with the event that names a new item. */
  lemma {:induction false} ProjectedIdsStep(items: seq<Item>, log: seq<Event>, e: Event)
    ensures ItemIds(ProjectItems(items, log + [e]))
         == var ids := ItemIds(ProjectItems(items, log));
            var id := if e.ItemEvent? then e.item.id else if e.DeltaEvent? then e.itemId else "";
            if (e.ItemEvent? || e.DeltaEvent?) && id !in ids then ids + [id] else ids
  {
    var all := log + [e];
    assert all[..|all| - 1] == log;
    var ks := ItemIds(items) + ItemMentions(log);
    ProjectedIds(items, log);
    ProjectedIds(items, all);
    if e.ItemEvent? || e.DeltaEvent? {
      var id := if e.ItemEvent? then e.item.id else e.itemId;
      assert ItemIds(items) + ItemMentions(all) == ks + [id];
      FirstSeenAppend(ks, id);
    } else {
      assert ItemMentions(all) == ItemMentions(log);
    }
  }

  /** An item that was not mentioned yet projects to an empty agent message. */
  lemma NewItem(items: seq<Item>, log: seq<Event>, k: Id)
    requires k !in ItemIds(items) + ItemMentions(log)
    ensures ProjectItem(Find(items, k, ItemKey), log, k) == AgentMessage(k, "", None)
  {
    FindPresent(items, k, ItemKey);
    Unmentioned(log, k);
    assert "" + "" == "";
  }

  lemma ExtendEmpty(k: Id, delta: string)
    ensures Extended(AgentMessage(k, "", None), delta) == AgentMessage(k, delta, None)
  {
    assert "" + delta == delta;
  }

  /** The look-ups of the projection change as the event says. */
  lemma {:induction false} FindProjectedStep(items: seq<Item>, log: seq<Event>, e: Event, k: Id)
    ensures Find(ProjectItems(items, log + [e]), k, ItemKey)
         == var o := Find(ProjectItems(items, log), k, ItemKey);
            if e.ItemEvent? && e.item.id == k then Some(e.item)
            else if e.DeltaEvent? && e.itemId == k then
              Some(if o.Some? then Extended(o.value, e.delta) else AgentMessage(k, e.delta, None))
            else o
  {
    ProjectItemStep(Find(items, k, ItemKey), log, e, k);
    FindProjected(items, log + [e], k);
    FindProjected(items, log, k);
    ItemMentionsStep(items, log, e);
    if e.DeltaEvent? && k !in ItemIds(items) + ItemMentions(log) {
      NewItem(items, log, k);
      ExtendEmpty(k, e.delta);
    }
  }

  lemma ItemMentionsStep(items: seq<Item>, log: seq<Event>, e: Event)
    ensures ItemIds(items) + ItemMentions(log + [e])
         == var ks := ItemIds(items) + ItemMentions(log);
            if e.ItemEvent? then ks + [e.item.id] else if e.DeltaEvent? then ks + [e.itemId] else ks
  {
    assert (log + [e])[..|log|] == log;
    var ids, ms := ItemIds(items), ItemMentions(log);
    assert forall id: Id :: ids + (ms + [id]) == ids + ms + [id];
    assert ms + [] == ms;
  }

  /** The projection of the items absorbs one more event of the turn. */
  lemma {:induction false} ProjectItemsStep(items: seq<Item>, log: seq<Event>, e: Event)
    ensures ProjectItems(items, log + [e]) == StepItems(ProjectItems(items, log), e)
  {
    var now := ProjectItems(items, log);
    var next := ProjectItems(items, log + [e]);
    ProjectedIds(items, log);
    ProjectedIds(items, log + [e]);
    ProjectedIdsStep(items, log, e);
    if e.ItemEvent? {
      UpsertEffect(now, e.item, ItemKey);
    } else if e.DeltaEvent? {
      AppendDeltaEffect(now, e.itemId, e.delta);
    }
    var stepped := StepItems(now, e);
    forall k
      ensures Find(next, k, ItemKey) == Find(stepped, k, ItemKey)
    {
      FindProjectedStep(items, log, e, k);
    }
    Extensional(next, stepped, ItemKey);
  }

  lemma {:induction false} ProjectItemId(initial: Option<Item>, log: seq<Event>, id: Id)
    requires initial.Some? ==> initial.value.id == id
    ensures ProjectItem(initial, log, id).id == id
  {
  }

  lemma {:induction false} ProjectedIds(items: seq<Item>, log: seq<Event>)
    ensures ItemIds(ProjectItems(items, log)) == FirstSeen(ItemIds(items) + ItemMentions(log))
  {
    var ids := FirstSeen(ItemIds(items) + ItemMentions(log));
    var r := ProjectItems(items, log);
    assert |r| == |ids|;
    forall i | 0 <= i < |ids|
      ensures r[i].id == ids[i]
    {
      ProjectItemId(Find(items, ids[i], ItemKey), log, ids[i]);
    }
  }

  lemma {:induction false} FindProjected(items: seq<Item>, log: seq<Event>, k: Id)
    ensures Find(ProjectItems(items, log), k, ItemKey)
         == if k in FirstSeen(ItemIds(items) + ItemMentions(log))
            then Some(ProjectItem(Find(items, k, ItemKey), log, k)) else None
  {
    ProjectedIds(items, log);
    FindPresent(ProjectItems(items, log), k, ItemKey);
  }

  lemma ExtendedTwice(item: Item, x: string, y: string)
    ensures Extended(Extended(item, x), y) == Extended(item, x + y)
    ensures Extended(item, "") == item
  {
    if item.AgentMessage? {
      assert item.text + x + y == item.text + (x + y);
      assert item.text + "" == item.text;
    }
  }

  /** One event extends the projection of one item exactly as the event says. */
  lemma {:induction false} ProjectItemStep(initial: Option<Item>, log: seq<Event>, e: Event, k: Id)
    ensures ProjectItem(initial, log + [e], k)
         == if e.ItemEvent? && e.item.id == k then e.item
            else if e.DeltaEvent? && e.itemId == k then Extended(ProjectItem(initial, log, k), e.delta)
            else ProjectItem(initial, log, k)
  {
    assert (log + [e])[..|log|] == log;
    var last := LastSnapshot(log + [e], k);
    var base := if last.Some? then last.value else if initial.Some? then initial.value else AgentMessage(k, "", None);
    var before := LaterDeltas(log, k);
    if e.DeltaEvent? && e.itemId == k {
      ExtendedTwice(base, before, e.delta);
    } else {
      ExtendedTwice(base, "", "");
      assert before + "" == before;
    }
  }

  /** An item that no event names has no snapshot and no deltas. */
  lemma {:induction false} Unmentioned(log: seq<Event>, k: Id)
    requires k !in ItemMentions(log)
    ensures LastSnapshot(log, k) == None && LaterDeltas(log, k) == ""
  {
    if log != [] {
      Unmentioned(log[..|log| - 1], k);
    }
  }

  // ----- the turns -----

  lemma {:induction false} ProjectItemsEmpty(items: seq<Item>)
    requires Distinct(ItemIds(items))
    ensures ProjectItems(items, []) == items
  {
    assert ItemIds(items) + ItemMentions([]) == ItemIds(items);
    FirstSeenDistinct(ItemIds(items));
    forall i | 0 <= i < |items|
      ensures ProjectItems(items, [])[i] == items[i]
    {
      FindAt(items, i, ItemKey);
      ExtendedTwice(items[i], "", "");
    }
  }

  /** The projection of one turn absorbs one more event: its own, and no other. */
  lemma {:induction false} ProjectTurnStep(initial: Option<Turn>, log: seq<Event>, e: Event, t: Id)
    ensures ProjectTurn(initial, log + [e], t)
         == if e.turnId != t || (e.TurnCompleted? && initial.None? && t !in TurnMentions(log))
            then ProjectTurn(initial, log, t)
            else StepTurn(ProjectTurn(initial, log, t), e)
  {
    var base := if initial.Some? then initial.value else FreshTurn(t);
    assert (log + [e])[..|log|] == log;
    var mine := EventsOf(log, t, initial.Some?);
    var next := EventsOf(log + [e], t, initial.Some?);
    if next != mine {
      assert next == mine + [e];
      assert next[..|next| - 1] == mine;
      ProjectItemsStep(base.items, mine, e);
    }
  }

  lemma {:induction false} ProjectedTurnIds(turns: seq<Turn>, log: seq<Event>)
    ensures TurnIds(Project(turns, log)) == FirstSeen(TurnIds(turns) + TurnMentions(log))
  {
  }

  lemma {:induction false} FindProjectedTurn(turns: seq<Turn>, log: seq<Event>, k: Id)
    ensures Find(Project(turns, log), k, TurnKey)
         == if k in TurnIds(turns) + TurnMentions(log)
            then Some(ProjectTurn(Find(turns, k, TurnKey), log, k)) else None
  {
    ProjectedTurnIds(turns, log);
    FindPresent(Project(turns, log), k, TurnKey);
  }

  /** A turn that no event creates has no events. */
  lemma {:induction false} NoEvents(log: seq<Event>, t: Id)
    requires t !in TurnMentions(log)
    ensures EventsOf(log, t, false) == []
  {
    if log != [] {
      NoEvents(log[..|log| - 1], t);
    }
  }

  lemma {:induction false} ProjectFresh(log: seq<Event>, t: Id)
    requires t !in TurnMentions(log)
    ensures ProjectTurn(None, log, t) == FreshTurn(t)
  {
    NoEvents(log, t);
    ProjectItemsEmpty([]);
  }

  lemma TurnMentionsStep(turns: seq<Turn>, log: seq<Event>, e: Event)
    ensures TurnIds(turns) + TurnMentions(log + [e])
         == var ks := TurnIds(turns) + TurnMentions(log); if e.TurnCompleted? then ks else ks + [e.turnId]
  {
    assert (log + [e])[..|log|] == log;
    var ids, ms := TurnIds(turns), TurnMentions(log);
    assert ids + (ms + [e.turnId]) == ids + ms + [e.turnId] && ms + [] == ms;
  }

  lemma ProjectStepIds(turns: seq<Turn>, log: seq<Event>, e: Event)
    ensures TurnIds(Project(turns, log + [e])) == TurnIds(Step(Project(turns, log), e))
    ensures Distinct(TurnIds(Project(turns, log + [e])))
  {
    var ks := TurnIds(turns) + TurnMentions(log);
    ProjectedTurnIds(turns, log);
    ProjectedTurnIds(turns, log + [e]);
    StepEffect(Project(turns, log), e);
    TurnMentionsStep(turns, log, e);
    FirstSeenAppend(ks, e.turnId);
  }

  lemma ProjectStepAt(turns: seq<Turn>, log: seq<Event>, e: Event, k: Id)
    ensures Find(Project(turns, log + [e]), k, TurnKey) == Find(Step(Project(turns, log), e), k, TurnKey)
  {
    ProjectedTurnIds(turns, log);
    StepEffect(Project(turns, log), e);
    FindProjectedTurn(turns, log, k);
    FindProjectedTurn(turns, log + [e], k);
    TurnMentionsStep(turns, log, e);
    ProjectTurnStep(Find(turns, k, TurnKey), log, e, k);
    FindPresent(turns, k, TurnKey);
    if k !in TurnIds(turns) + TurnMentions(log) {
      ProjectFresh(log, k);
    }
  }

  /** The projection of the whole view absorbs one more event. */
  lemma {:induction false} ProjectStep(turns: seq<Turn>, log: seq<Event>, e: Event)
    ensures Project(turns, log + [e]) == Step(Project(turns, log), e)
  {
    ProjectStepIds(turns, log, e);
    forall k
      ensures Find(Project(turns, log + [e]), k, TurnKey) == Find(Step(Project(turns, log), e), k, TurnKey)
    {
      ProjectStepAt(turns, log, e, k);
    }
    Extensional(Project(turns, log + [e]), Step(Project(turns, log), e), TurnKey);
  }

  lemma {:induction false} ProjectEmpty(turns: seq<Turn>)
    requires WellFormed(turns)
    ensures Project(turns, []) == turns
  {
    assert TurnIds(turns) + TurnMentions([]) == TurnIds(turns);
    FirstSeenDistinct(TurnIds(turns));
    forall i | 0 <= i < |turns|
      ensures Project(turns, [])[i] == turns[i]
    {
      FindAt(turns, i, TurnKey);
      ProjectItemsEmpty(turns[i].items);
    }
  }

  lemma RunSnoc(turns: seq<Turn>, front: seq<Event>, e: Event)
    ensures Run(turns, front + [e]) == Step(Run(turns, front), e)
  {
    assert (front + [e])[..|front|] == front;
  }

  predicate Follows(turns: seq<Turn>, log: seq<Event>) { Run(turns, log) == Project(turns, log) }

  lemma {:induction false} OneMoreEvent(turns: seq<Turn>, front: seq<Event>, e: Event)
    requires Follows(turns, front)
    ensures Follows(turns, front + [e])
  {
    RunSnoc(turns, front, e);
    ProjectStep(turns, front, e);
  }

  /** What holds of the empty log, and of a log with one more event, holds of every log. */
  lemma {:induction false} BySnoc(good: iset<seq<Event>>, log: seq<Event>)
    requires [] in good && forall front, e :: front in good ==> front + [e] in good
    ensures log in good
    decreases |log|
  {
    if log != [] {
      var front, e := log[..|log| - 1], log[|log| - 1];
      BySnoc(good, front);
      assert log == front + [e];
    }
  }

  lemma {:induction false} RunFollowsProjection(turns: seq<Turn>, log: seq<Event>)
    requires Follows(turns, [])
    ensures Follows(turns, log)
  {
    var good := iset l | Follows(turns, l);
    forall front, e | front in good
      ensures front + [e] in good
    {
      OneMoreEvent(turns, front, e);
    }
    BySnoc(good, log);
  }

  /** The streaming fold is the projection of its log: after any run the turns and their items stand
      in first-mention order, and each item is its last snapshot followed by the later deltas. */
  lemma {:induction false} RunIsProjection(turns: seq<Turn>, log: seq<Event>)
    requires WellFormed(turns)
    ensures Run(turns, log) == Project(turns, log)
  {
    ProjectEmpty(turns);
    RunFollowsProjection(turns, log);
  }

  /** Identifiers stay distinct over every run. */
  lemma {:induction false} RunWellFormed(turns: seq<Turn>, log: seq<Event>)
    requires WellFormed(turns)
    ensures WellFormed(Run(turns, log))
  {
    RunIsProjection(turns, log);
    ProjectedTurnIds(turns, log);
    var r := Project(turns, log);
    forall i | 0 <= i < |r|
      ensures Distinct(ItemIds(r[i].items))
    {
      var ids := FirstSeen(TurnIds(turns) + TurnMentions(log));
      var initial := Find(turns, ids[i], TurnKey);
      var base := if initial.Some? then initial.value else FreshTurn(ids[i]);
      ProjectedIds(base.items, EventsOf(log, ids[i], initial.Some?));
    }
  }

  /** How events of different turns interleave does not matter: two logs that create turns in the same
      order and agree on the events of every turn lead to the same view. */
  lemma {:induction false} InterleavingIrrelevant(turns: seq<Turn>, log: seq<Event>, other: seq<Event>)
    requires WellFormed(turns)
    requires FirstSeen(TurnIds(turns) + TurnMentions(log)) == FirstSeen(TurnIds(turns) + TurnMentions(other))
    requires forall t :: EventsOf(log, t, t in TurnIds(turns)) == EventsOf(other, t, t in TurnIds(turns))
    ensures Run(turns, log) == Run(turns, other)
  {
    RunIsProjection(turns, log);
    RunIsProjection(turns, other);
    var ids := FirstSeen(TurnIds(turns) + TurnMentions(log));
    forall i | 0 <= i < |ids|
      ensures Project(turns, log)[i] == Project(turns, other)[i]
    {
      FindPresent(turns, ids[i], TurnKey);
    }
  }

  /** Within a turn, an item depends on its own events only. */
  function EventsOfItem(log: seq<Event>, id: Id): seq<Event> {
    if log == [] then []
    else
      var e := log[|log| - 1];
      var r := EventsOfItem(log[..|log| - 1], id);
      if (e.ItemEvent? && e.item.id == id) || (e.DeltaEvent? && e.itemId == id) then r + [e] else r
  }

  lemma {:induction false} ItemLocality(initial: Option<Item>, log: seq<Event>, id: Id)
    ensures ProjectItem(initial, log, id) == ProjectItem(initial, EventsOfItem(log, id), id)
  {
    if log != [] {
      var front := log[..|log| - 1];
      var e := log[|log| - 1];
      assert log == front + [e];
      ItemLocality(initial, front, id);
      ProjectItemStep(initial, front, e, id);
      ProjectItemStep(initial, EventsOfItem(front, id), e, id);
    }
  }
}
