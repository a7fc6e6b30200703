/** The asynchronous protocol around the desktop session: selecting threads, starting turns, and
    sending queued messages. Every stretch of code between two awaits is one step; every request is a
    call in flight that settles later, in any order and with any outcome. */
module Session {
  import opened Wrappers
  import opened Keyed

  /** A queued message. Identifiers are never reused. */
  datatype Message = Message(id: nat, text: string, asGoal: bool)

  /** Who waits for a call: a selection, a direct send, the queue drain, or the manual "send queued". */
  datatype Origin = Selecting | Direct | FromQueue(msg: Message) | ByHand(msg: Message, goalAfter: bool)

  /** What a call in flight is waiting for. */
  datatype Stage =
    | Unsubscribe(thread: Id)
    | Resume(thread: Id)
    | Read(thread: Id)
    | Start
    | Ensure(text: string, asGoal: bool, queueing: bool, waitsFor: Option<nat>)
    | Steer(asGoal: bool, retried: bool)
    | SteerQueued
    | Fork
    | BeginTurn(thread: Id, withGoal: bool)
    | SetGoal
    | Resolved

  /** A call remembers the selection counter it was issued under. */
  datatype Call = Call(token: nat, origin: Origin, stage: Stage)

  /** How a call settles. */
  datatype Reply =
    | Answer(thread: Id, turn: Option<Id>)
    | Fail
    | FailReadOnly
    | FailNoTurn
    | FailMismatch(found: Id)

  datatype Handover = Handover(id: nat, byDrain: bool)

  datatype Write = Write(token: nat, viewed: Option<Id>)

  /** What the window shows, and the thread and turn that new input goes to. `writes` records every
      write of `viewed`. */
  datatype View = View(viewed: Option<Id>, shown: Option<Id>, turnId: Option<Id>,
                       running: bool, readOnly: bool, writes: seq<Write>)

  /** The queue. `handed` records every message handed over, and `leaked` that one was handed over by
      hand and yet stayed in the queue. */
  datatype Queue = Queue(messages: seq<Message>, nextMessage: nat, editing: Option<nat>,
                         handed: seq<Handover>, leaked: bool)

  datatype State = State(selection: nat, view: View, queue: Queue, sending: bool, acting: bool,
                         pendingStart: Option<nat>, calls: map<nat, Call>, nextCall: nat)

  const Initial := State(0, View(None, None, None, false, false, []), Queue([], 0, None, [], false),
                         false, false, None, map[], 0)

  datatype Step =
    | Open(thread: Id, overrides: bool)
    | Draft
    | ChooseProject
    | Send(text: string, asGoal: bool, queueing: bool)
    | GoalOrReview
    | SendQueued(id: nat, side: bool)
    | Drain
    | Settle(call: nat, reply: Reply)
    | TurnStartedNote(thread: Id, turn: Id)
    | TurnCompletedNote(thread: Id)
    | RemoveQueued(id: nat)
    | EditQueued(id: nat, text: string)
    | OrderQueued(ids: seq<nat>)
    | SetEditing(target: Option<nat>)
    | ThreadRemoved(thread: Id)

  // ----- the queue -----

  function Ids(queue: seq<Message>): (r: seq<nat>)
    ensures |r| == |queue|
    ensures forall i :: 0 <= i < |queue| ==> r[i] == queue[i].id
  {
    seq(|queue|, i requires 0 <= i < |queue| => queue[i].id)
  }

  function FindMessage(queue: seq<Message>, id: nat): (o: Option<Message>)
    ensures o.Some? ==> o.value in queue && o.value.id == id
    ensures o.None? ==> id !in Ids(queue)
  {
    if queue == [] then None
    else if queue[0].id == id then Some(queue[0])
    else FindMessage(queue[1..], id)
  }

  /** `filter(message => message.id !== id)`. */
  function Without(queue: seq<Message>, id: nat): (r: seq<Message>)
    ensures forall m :: m in r <==> m in queue && m.id != id
  {
    if queue == [] then []
    else (if queue[0].id == id then [] else [queue[0]]) + Without(queue[1..], id)
  }

  function Edit(queue: seq<Message>, id: nat, text: string): (r: seq<Message>)
    ensures Ids(r) == Ids(queue)
  {
    seq(|queue|, i requires 0 <= i < |queue| =>
      if queue[i].id == id then queue[i].(text := text) else queue[i])
  }

  /** The messages named by `ids`, in that order. `new Map(...)` keeps the last entry of a repeated key. */
  function Picked(queue: seq<Message>, ids: seq<nat>): (r: seq<Message>)
    ensures forall m :: m in r ==> m in queue && m.id in ids
  {
    if ids == [] then []
    else
      var o := FindLast(queue, ids[0]);
      (if o.Some? then [o.value] else []) + Picked(queue, ids[1..])
  }

  function FindLast(queue: seq<Message>, id: nat): (o: Option<Message>)
    ensures o.Some? ==> o.value in queue && o.value.id == id
    ensures o.None? ==> id !in Ids(queue)
  {
    if queue == [] then None
    else if queue[|queue| - 1].id == id then Some(queue[|queue| - 1])
    else FindLast(queue[..|queue| - 1], id)
  }

  function Unnamed(queue: seq<Message>, ids: seq<nat>): (r: seq<Message>)
    ensures forall m :: m in r <==> m in queue && m.id !in ids
  {
    if queue == [] then []
    else (if queue[0].id in ids then [] else [queue[0]]) + Unnamed(queue[1..], ids)
  }

  function Enqueue(q: Queue, text: string, asGoal: bool): Queue {
    q.(messages := q.messages + [Message(q.nextMessage, text, asGoal)], nextMessage := q.nextMessage + 1)
  }

  function Reorder(queue: seq<Message>, ids: seq<nat>): seq<Message> {
    Picked(queue, ids) + Unnamed(queue, ids)
  }

  // ----- issuing and finishing calls -----

  function Issue(s: State, c: Call): State {
    s.(calls := s.calls[s.nextCall := c], nextCall := s.nextCall + 1)
  }

  /** Start a thread for a draft unless one is being started; the caller waits for that call. */
  function EnsureThread(s: State): (State, Option<nat>) {
    if s.view.viewed.Some? then (s, None)
    else if s.pendingStart.Some? then (s, s.pendingStart)
    else (Issue(s, Call(s.selection, Selecting, Start)).(pendingStart := Some(s.nextCall)), Some(s.nextCall))
  }

  /** Ask the server to start a turn, as call number `c`. Without a thread the call resolves at once. */
  function StartTurn(s: State, c: nat, origin: Origin, withGoal: bool): State {
    var stage := if s.view.viewed.Some? then BeginTurn(s.view.viewed.value, withGoal) else Resolved;
    Await(s, c, Call(s.selection, origin, stage))
  }

  function HandOverByHand(q: Queue, id: nat, live: bool): Queue {
    q.(messages := if live then Without(q.messages, id) else q.messages,
       handed := q.handed + [Handover(id, false)],
       leaked := q.leaked || (!live && id in Ids(q.messages)))
  }

  function HandOverFirst(q: Queue): Queue
    requires q.messages != []
  {
    var id := q.messages[0].id;
    q.(messages := Without(q.messages, id), handed := q.handed + [Handover(id, true)])
  }

  /** The end of a call: the waiting drain or manual send clears its flag. A manual send that went
      through takes its message off the queue, but only while its selection is the current one. */
  function Finish(s: State, token: nat, origin: Origin, ok: bool): State {
    match origin
    case Selecting => s
    case Direct => s
    case FromQueue(_) => s.(sending := false)
    case ByHand(m, _) =>
      if !ok then s.(acting := false)
      else
        s.(acting := false, queue := HandOverByHand(s.queue, m.id, token == s.selection))
  }

  /** After the turn request: a manual send of a goal message still has to set the goal. */
  function FinishTurn(s: State, c: nat, token: nat, origin: Origin): State {
    if origin.ByHand? && origin.goalAfter && origin.msg.asGoal then
      SettingGoal(s, c, token, origin.(goalAfter := false))
    else Finish(s, token, origin, true)
  }

  function SettingGoal(s: State, c: nat, token: nat, origin: Origin): State {
    EnsureThread(Await(s, c, Call(token, origin, SetGoal))).0
  }

  /** Show a thread: the view, the queue and the running flag start afresh. */
  function ShowThread(s: State, token: nat, thread: Id, turn: Option<Id>, readOnly: bool): State {
    s.(view := View(Some(thread), Some(thread), turn, !readOnly && turn.Some?, readOnly,
                    s.view.writes + [Write(token, Some(thread))]),
       queue := s.queue.(messages := []))
  }

  function SetTurn(s: State, turn: Option<Id>): State {
    s.(view := s.view.(turnId := turn))
  }

  function TurnRunning(s: State, turn: Option<Id>): State {
    s.(view := s.view.(turnId := turn, running := true))
  }

  /** Put call `c` back in flight. */
  function Await(s: State, c: nat, call: Call): State {
    s.(calls := s.calls[c := call])
  }

  /** The continuation of opening or starting a thread: only a reply to the current selection shows. */
  function ResolveSelecting(s: State, c: nat, call: Call, r: Reply): State {
    if call.stage.Unsubscribe? then Await(s, c, call.(stage := Resume(call.stage.thread)))
    else if call.stage.Start? then
      ShowIfLive(if s.pendingStart == Some(c) then s.(pendingStart := None) else s, call, r, None, false)
    else if call.stage.Resume? && r.FailReadOnly? && call.token == s.selection then
      Await(s, c, call.(stage := Read(call.stage.thread)))
    else ShowIfLive(s, call, r, if r.Answer? then r.turn else None, call.stage.Read?)
  }

  function ShowIfLive(s: State, call: Call, r: Reply, turn: Option<Id>, readOnly: bool): State {
    if r.Answer? && call.token == s.selection then ShowThread(s, call.token, r.thread, turn, readOnly) else s
  }

  /** A direct send, once there is a thread: queue behind the running turn, steer it, or start one. */
  function ResolveEnsure(s: State, c: nat, call: Call, r: Reply): State
    requires call.stage.Ensure?
  {
    var asGoal := call.stage.asGoal;
    if !r.Answer? || call.token != s.selection then s
    else if s.view.turnId.Some? && call.stage.queueing then
      s.(queue := Enqueue(s.queue, call.stage.text, asGoal))
    else if s.view.turnId.Some? then Await(s, c, Call(call.token, Direct, Steer(asGoal, false)))
    else StartTurn(s, c, Direct, asGoal)
  }

  /** A direct send that steers: fall back to a new turn, or retry once under the turn the server names. */
  function ResolveSteer(s: State, c: nat, call: Call, r: Reply): State
    requires call.stage.Steer?
  {
    var asGoal := call.stage.asGoal;
    match r
    case Answer(_, _) => if asGoal then SettingGoal(s, c, call.token, Direct) else s
    case FailNoTurn => StartTurn(SetTurn(s, None), c, Direct, asGoal)
    case FailMismatch(found) =>
      if call.stage.retried then s
      else Await(SetTurn(s, Some(found)), c, Call(call.token, Direct, Steer(asGoal, true)))
    case _ => s
  }

  /** A manual send that steers: fall back to a new turn unless the selection changed meanwhile. */
  function ResolveSteerQueued(s: State, c: nat, call: Call, r: Reply): State {
    if r.Answer? then FinishTurn(s, c, call.token, call.origin)
    else if r.FailNoTurn? && call.token == s.selection then
      StartTurn(SetTurn(s, None), c, call.origin, false)
    else Finish(s, call.token, call.origin, false)
  }

  /** The reply to a turn request counts for the view only under an unchanged selection. */
  function ResolveBeginTurn(s: State, c: nat, call: Call, r: Reply): State
    requires call.stage.BeginTurn?
  {
    if !r.Answer? || r.turn.None? then Finish(s, call.token, call.origin, false)
    else if call.token != s.selection then FinishTurn(s, c, call.token, call.origin)
    else
      var s1 := TurnRunning(s, r.turn);
      if call.stage.withGoal then SettingGoal(s1, c, call.token, call.origin)
      else FinishTurn(s1, c, call.token, call.origin)
  }

  /** A call settles. `s` no longer holds it. */
  function Resolve(s: State, c: nat, call: Call, r: Reply): State {
    var stage := call.stage;
    if stage.Ensure? then ResolveEnsure(s, c, call, r)
    else if stage.Steer? then ResolveSteer(s, c, call, r)
    else if stage.SteerQueued? then ResolveSteerQueued(s, c, call, r)
    else if stage.Fork? then Finish(s, call.token, call.origin, r.Answer?)
    else if stage.BeginTurn? then ResolveBeginTurn(s, c, call, r)
    else if stage.SetGoal? || stage.Resolved? then FinishTurn(s, c, call.token, call.origin)
    else ResolveSelecting(s, c, call, r)
  }

  /** A send that waits for a thread start cannot continue before that start has settled. */
  predicate Blocked(s: State, c: nat)
    requires c in s.calls
  {
    var stage := s.calls[c].stage;
    stage.Ensure? && stage.waitsFor.Some? && stage.waitsFor.value in s.calls
  }

  predicate CanDrain(s: State) {
    && !s.sending && !s.acting && !s.view.running && !s.view.readOnly
    && (s.queue.editing.Some? ==> s.queue.editing.value !in Ids(s.queue.messages))
    && s.queue.messages != []
  }

  /** One step. A step whose guard fails leaves the state as it is. */
  function Next(s: State, step: Step): State {
    match step
    case Open(thread, overrides) =>
      var token := s.selection + 1;
      Issue(s.(selection := token),
            Call(token, Selecting, if overrides then Unsubscribe(thread) else Resume(thread)))
    case Draft =>
      s.(selection := s.selection + 1,
         view := View(None, None, None, false, false, s.view.writes + [Write(s.selection + 1, None)]),
         queue := s.queue.(messages := []))
    case ChooseProject =>
      s.(view := s.view.(shown := None, running := false, readOnly := false), queue := s.queue.(messages := []))
    case Send(text, asGoal, queueing) =>
      if s.view.readOnly then s
      else
        var (s1, waitsFor) := EnsureThread(s);
        Issue(s1, Call(s.selection, Direct, Ensure(text, asGoal, queueing, waitsFor)))
    case GoalOrReview => EnsureThread(s).0
    case SendQueued(id, side) =>
      var o := FindMessage(s.queue.messages, id);
      if o.None? || s.view.viewed.None? || s.acting || s.sending || s.view.readOnly then s
      else
        var s1 := s.(acting := true, nextCall := s.nextCall + 1);
        if side then Await(s1, s.nextCall, Call(s.selection, ByHand(o.value, false), Fork))
        else if s.view.turnId.Some? then
          Await(s1, s.nextCall, Call(s.selection, ByHand(o.value, true), SteerQueued))
        else StartTurn(s1, s.nextCall, ByHand(o.value, false), o.value.asGoal)
    case Drain =>
      if !CanDrain(s) then s
      else
        var m := s.queue.messages[0];
        var s1 := s.(sending := true, queue := HandOverFirst(s.queue), nextCall := s.nextCall + 1);
        StartTurn(s1, s.nextCall, FromQueue(m), m.asGoal)
    case Settle(c, r) =>
      if c !in s.calls || Blocked(s, c) then s
      else Resolve(s.(calls := s.calls - {c}), c, s.calls[c], r)
    case TurnStartedNote(thread, turn) =>
      if s.view.viewed != Some(thread) then s else TurnRunning(s, Some(turn))
    case TurnCompletedNote(thread) =>
      if s.view.viewed != Some(thread) then s else s.(view := s.view.(turnId := None, running := false))
    case RemoveQueued(id) => s.(queue := s.queue.(messages := Without(s.queue.messages, id)))
    case EditQueued(id, text) => s.(queue := s.queue.(messages := Edit(s.queue.messages, id, text)))
    case OrderQueued(ids) => s.(queue := s.queue.(messages := Reorder(s.queue.messages, ids)))
    case SetEditing(target) => s.(queue := s.queue.(editing := target))
    case ThreadRemoved(thread) =>
      if s.view.shown == Some(thread) then s.(view := s.view.(shown := None, readOnly := false)) else s
  }

  function Exec(s: State, steps: seq<Step>): State {
    if steps == [] then s else Next(Exec(s, steps[..|steps| - 1]), steps[|steps| - 1])
  }

  // ----- invariants of every run -----

  predicate ForQueue(c: Call) { c.origin.FromQueue? || c.origin.ByHand? }

  /** The stages of a call that serves the queue. */
  predicate QueueStage(stage: Stage) {
    stage.SteerQueued? || stage.Fork? || stage.BeginTurn? || stage.SetGoal? || stage.Resolved?
  }

  /** `k` is the one call that serves the queue, if any: `sending` is set exactly while it is a drain
      and `acting` exactly while it is a manual send. */
  ghost predicate Serving(calls: map<nat, Call>, sending: bool, acting: bool, k: Option<nat>) {
    && (forall c :: c in calls && ForQueue(calls[c]) ==> Some(c) == k)
    && match k
       case None => !sending && !acting
       case Some(c) =>
         && c in calls && ForQueue(calls[c]) && QueueStage(calls[c].stage)
         && sending == calls[c].origin.FromQueue?
         && acting == calls[c].origin.ByHand?
  }

  /** Exactly the calls of a selection wait for one of its requests. */
  predicate Fits(call: Call) {
    call.origin.Selecting? <==>
      call.stage.Unsubscribe? || call.stage.Resume? || call.stage.Read? || call.stage.Start?
  }

  /** Call numbers are not reused, and no call is newer than the selection counter. */
  ghost predicate CallsNumbered(calls: map<nat, Call>, nextCall: nat, selection: nat) {
    forall c :: c in calls ==> c < nextCall && calls[c].token <= selection && Fits(calls[c])
  }

  /** The invariant of a run, with the serving call named. */
  ghost predicate Sound(s: State, k: Option<nat>) {
    Serving(s.calls, s.sending, s.acting, k) && CallsNumbered(s.calls, s.nextCall, s.selection)
  }

  lemma EnsureThreadKeeps(s: State, k: Option<nat>)
    requires Sound(s, k)
    ensures Sound(EnsureThread(s).0, k)
  {
  }

  /** Putting a call in flight makes it the serving one exactly when it serves the queue. */
  lemma Restage(s: State, c: nat, call: Call, k: Option<nat>)
    requires Sound(s, k)
    requires c < s.nextCall && call.token <= s.selection && !ForQueue(call) && Fits(call)
    requires k != Some(c)
    ensures Sound(Await(s, c, call), k)
  {
  }

  /** A call that serves the queue is out of `s`, with its flag still set. */
  ghost predicate Detached(s: State, c: nat, call: Call) {
    && CallsNumbered(s.calls, s.nextCall, s.selection) && Serving(s.calls, false, false, None)
    && c !in s.calls && c < s.nextCall && call.token <= s.selection
    && ForQueue(call) && s.sending == call.origin.FromQueue? && s.acting == call.origin.ByHand?
  }

  lemma Reattach(s: State, c: nat, call: Call)
    requires Detached(s, c, call) && QueueStage(call.stage)
    ensures Sound(Await(s, c, call), Some(c))
  {
  }

  lemma FinishKeeps(s: State, c: nat, call: Call, ok: bool)
    requires Detached(s, c, call)
    ensures Sound(Finish(s, call.token, call.origin, ok), None)
  {
  }

  lemma SettingGoalKeeps(s: State, c: nat, call: Call, origin: Origin)
    requires Detached(s, c, call) && origin.FromQueue? == call.origin.FromQueue? && ForQueue(call.(origin := origin))
    ensures Sound(SettingGoal(s, c, call.token, origin), Some(c))
    ensures c in SettingGoal(s, c, call.token, origin).calls
  {
    var next := Call(call.token, origin, SetGoal);
    Reattach(s, c, next);
    EnsureThreadKeeps(Await(s, c, next), Some(c));
  }

  lemma FinishTurnKeeps(s: State, c: nat, call: Call) returns (k: Option<nat>)
    requires Detached(s, c, call)
    ensures Sound(FinishTurn(s, c, call.token, call.origin), k)
    ensures k == if c in FinishTurn(s, c, call.token, call.origin).calls then Some(c) else None
  {
    var origin := call.origin;
    if origin.ByHand? && origin.goalAfter && origin.msg.asGoal {
      SettingGoalKeeps(s, c, call, origin.(goalAfter := false));
      k := Some(c);
    } else {
      FinishKeeps(s, c, call, true);
      k := None;
    }
  }

  /** The call that serves the queue either ends, and clears its flag, or moves to its next stage. */
  lemma ResolveServing(s: State, c: nat, call: Call, r: Reply) returns (k: Option<nat>)
    requires Detached(s, c, call) && QueueStage(call.stage)
    ensures Sound(Resolve(s, c, call, r), k)
    ensures k == if c in Resolve(s, c, call, r).calls then Some(c) else None
  {
    var live := call.token == s.selection;
    match call.stage
    case SteerQueued =>
      if r.Answer? {
        k := FinishTurnKeeps(s, c, call);
      } else if r.FailNoTurn? && live {
        var s1 := SetTurn(s, None);
        k := Some(c);
        Reattach(s1, c, StartTurn(s1, c, call.origin, false).calls[c]);
      } else {
        k := None;
        FinishKeeps(s, c, call, false);
      }
    case Fork =>
      k := None;
      FinishKeeps(s, c, call, r.Answer?);
    case BeginTurn(_, withGoal) =>
      if !r.Answer? || r.turn.None? {
        k := None;
        FinishKeeps(s, c, call, false);
      } else if !live {
        k := FinishTurnKeeps(s, c, call);
      } else {
        var s1 := TurnRunning(s, r.turn);
        if withGoal {
          SettingGoalKeeps(s1, c, call, call.origin);
          k := Some(c);
        } else {
          k := FinishTurnKeeps(s1, c, call);
        }
      }
    case SetGoal => k := FinishTurnKeeps(s, c, call);
    case Resolved => k := FinishTurnKeeps(s, c, call);
  }

  predicate SameCalls(s: State, t: State) {
    s.calls == t.calls && s.nextCall == t.nextCall && s.selection == t.selection
    && s.sending == t.sending && s.acting == t.acting
  }

  lemma SameCallsSound(s: State, t: State, k: Option<nat>)
    requires Sound(s, k) && SameCalls(s, t)
    ensures Sound(t, k)
  {
  }

  /** Call number `c`, which does not serve the queue, is out of `s`. */
  ghost predicate Aside(s: State, c: nat, call: Call, k: Option<nat>) {
    Sound(s, k) && c !in s.calls && c < s.nextCall && call.token <= s.selection && !ForQueue(call) && Fits(call)
  }

  lemma ShowKeepsCalls(s: State, call: Call, r: Reply, turn: Option<Id>, readOnly: bool)
    ensures SameCalls(s, ShowIfLive(s, call, r, turn, readOnly))
  {
  }

  lemma SelectingSound(s: State, c: nat, call: Call, r: Reply, k: Option<nat>)
    requires Aside(s, c, call, k)
    ensures Sound(ResolveSelecting(s, c, call, r), k)
  {
    var stage := call.stage;
    if stage.Unsubscribe? {
      Restage(s, c, call.(stage := Resume(stage.thread)), k);
    } else if stage.Resume? && r.FailReadOnly? && call.token == s.selection {
      Restage(s, c, call.(stage := Read(stage.thread)), k);
    } else if stage.Start? {
      ShowKeepsCalls(if s.pendingStart == Some(c) then s.(pendingStart := None) else s, call, r, None, false);
      SameCallsSound(s, ResolveSelecting(s, c, call, r), k);
    } else {
      ShowKeepsCalls(s, call, r, if r.Answer? then r.turn else None, stage.Read?);
      SameCallsSound(s, ResolveSelecting(s, c, call, r), k);
    }
  }

  lemma EnsureSound(s: State, c: nat, call: Call, r: Reply, k: Option<nat>)
    requires Aside(s, c, call, k) && call.stage.Ensure?
    ensures Sound(ResolveEnsure(s, c, call, r), k)
  {
    var asGoal := call.stage.asGoal;
    if s.view.turnId.Some? {
      Restage(s, c, Call(call.token, Direct, Steer(asGoal, false)), k);
    } else {
      Restage(s, c, StartTurn(s, c, Direct, asGoal).calls[c], k);
    }
  }

  lemma SteerSound(s: State, c: nat, call: Call, r: Reply, k: Option<nat>)
    requires Aside(s, c, call, k) && call.stage.Steer?
    ensures Sound(ResolveSteer(s, c, call, r), k)
  {
    var asGoal := call.stage.asGoal;
    match r
    case Answer(_, _) =>
      var goal := Call(call.token, Direct, SetGoal);
      Restage(s, c, goal, k);
      EnsureThreadKeeps(Await(s, c, goal), k);
    case FailNoTurn =>
      var s1 := SetTurn(s, None);
      SameCallsSound(s, s1, k);
      Restage(s1, c, StartTurn(s1, c, Direct, asGoal).calls[c], k);
    case FailMismatch(found) =>
      var s1 := SetTurn(s, Some(found));
      SameCallsSound(s, s1, k);
      Restage(s1, c, Call(call.token, Direct, Steer(asGoal, true)), k);
    case _ =>
  }

  lemma BeginTurnSound(s: State, c: nat, call: Call, r: Reply, k: Option<nat>)
    requires Aside(s, c, call, k) && call.stage.BeginTurn?
    ensures Sound(ResolveBeginTurn(s, c, call, r), k)
  {
    if r.Answer? {
      var goal := Call(call.token, call.origin, SetGoal);
      var s1 := TurnRunning(s, r.turn);
      SameCallsSound(s, s1, k);
      Restage(s1, c, goal, k);
      EnsureThreadKeeps(Await(s1, c, goal), k);
    }
  }

  lemma FinishOther(s: State, c: nat, call: Call)
    requires !ForQueue(call)
    ensures forall ok :: Finish(s, call.token, call.origin, ok) == s
    ensures FinishTurn(s, c, call.token, call.origin) == s
  {
  }

  lemma SteerQueuedSound(s: State, c: nat, call: Call, r: Reply, k: Option<nat>)
    requires Aside(s, c, call, k) && call.stage.SteerQueued?
    ensures Sound(ResolveSteerQueued(s, c, call, r), k)
  {
    FinishOther(s, c, call);
    var s1 := SetTurn(s, None);
    Restage(s1, c, StartTurn(s1, c, call.origin, false).calls[c], k);
  }

  /** A call that does not serve the queue settles without touching the one that does. */
  lemma ResolveOther(s: State, c: nat, call: Call, r: Reply, k: Option<nat>)
    requires Aside(s, c, call, k)
    ensures Sound(Resolve(s, c, call, r), k)
  {
    var stage := call.stage;
    FinishOther(s, c, call);
    if stage.Ensure? {
      EnsureSound(s, c, call, r, k);
    } else if stage.Steer? {
      SteerSound(s, c, call, r, k);
    } else if stage.BeginTurn? {
      BeginTurnSound(s, c, call, r, k);
    } else if stage.SteerQueued? {
      SteerQueuedSound(s, c, call, r, k);
    } else {
      SelectingSound(s, c, call, r, k);
    }
  }

  lemma SettleSound(s: State, c: nat, r: Reply, k: Option<nat>) returns (kNext: Option<nat>)
    requires Sound(s, k) && c in s.calls
    ensures var t := Resolve(s.(calls := s.calls - {c}), c, s.calls[c], r);
      Sound(t, kNext) && kNext == if !ForQueue(s.calls[c]) then k else if c in t.calls then Some(c) else None
  {
    var rest := s.(calls := s.calls - {c});
    if ForQueue(s.calls[c]) {
      assert Detached(rest, c, s.calls[c]);
      kNext := ResolveServing(rest, c, s.calls[c], r);
    } else {
      assert Aside(rest, c, s.calls[c], k);
      ResolveOther(rest, c, s.calls[c], r, k);
      kNext := k;
    }
  }

  lemma SendSound(s: State, k: Option<nat>, text: string, asGoal: bool, queueing: bool)
    requires Sound(s, k)
    ensures Sound(Next(s, Send(text, asGoal, queueing)), k)
  {
    EnsureThreadKeeps(s, k);
    var (s1, waitsFor) := EnsureThread(s);
    var call := Call(s.selection, Direct, Ensure(text, asGoal, queueing, waitsFor));
    var s2 := s1.(nextCall := s1.nextCall + 1);
    assert Sound(s2, k);
    Restage(s2, s1.nextCall, call, k);
  }

  /** A call that serves the queue begins only when none is in flight. */
  lemma BeginServing(s: State, c: nat, call: Call)
    requires Sound(s, None) && c == s.nextCall && call.token <= s.selection
    requires ForQueue(call) && QueueStage(call.stage)
    ensures Sound(Await(s.(sending := call.origin.FromQueue?, acting := call.origin.ByHand?, nextCall := c + 1), c,
                        call), Some(c))
  {
    Reattach(s.(sending := call.origin.FromQueue?, acting := call.origin.ByHand?, nextCall := c + 1), c, call);
  }

  lemma DrainSound(s: State, k: Option<nat>) returns (kNext: Option<nat>)
    requires Sound(s, k)
    ensures Sound(Next(s, Drain), kNext)
    ensures CanDrain(s) ==> k == None && kNext == Some(s.nextCall) && s.nextCall in Next(s, Drain).calls
  {
    if CanDrain(s) {
      kNext := Some(s.nextCall);
      var t := Next(s, Drain);
      BeginServing(s, s.nextCall, t.calls[s.nextCall]);
      SameCallsSound(Await(s.(sending := true, acting := false, nextCall := s.nextCall + 1), s.nextCall,
                           t.calls[s.nextCall]), t, kNext);
    } else {
      kNext := k;
    }
  }

  lemma SendQueuedSound(s: State, k: Option<nat>, id: nat, side: bool) returns (kNext: Option<nat>)
    requires Sound(s, k)
    ensures Sound(Next(s, SendQueued(id, side)), kNext)
    ensures Next(s, SendQueued(id, side)) != s ==> k == None && kNext == Some(s.nextCall)
    ensures Next(s, SendQueued(id, side)) == s ==> kNext == k
  {
    var t := Next(s, SendQueued(id, side));
    if s.nextCall in t.calls {
      kNext := Some(s.nextCall);
      BeginServing(s, s.nextCall, t.calls[s.nextCall]);
    } else {
      kNext := k;
    }
  }

  /** Every step keeps the flags in line with the calls in flight. */
  lemma NextSound(s: State, step: Step, k: Option<nat>) returns (kNext: Option<nat>)
    requires Sound(s, k)
    ensures Sound(Next(s, step), kNext)
  {
    kNext := k;
    match step
    case Open(thread, overrides) =>
      var token := s.selection + 1;
      var s1 := s.(selection := token, nextCall := s.nextCall + 1);
      Restage(s1, s.nextCall, Call(token, Selecting, if overrides then Unsubscribe(thread) else Resume(thread)), k);
    case Send(text, asGoal, queueing) => SendSound(s, k, text, asGoal, queueing);
    case GoalOrReview => EnsureThreadKeeps(s, k);
    case SendQueued(id, side) => kNext := SendQueuedSound(s, k, id, side);
    case Drain => kNext := DrainSound(s, k);
    case Settle(c, r) =>
      if c in s.calls && !Blocked(s, c) {
        kNext := SettleSound(s, c, r, k);
      }
    case Draft =>
    case ChooseProject =>
    case TurnStartedNote(_, _) =>
    case TurnCompletedNote(_) =>
    case RemoveQueued(_) =>
    case EditQueued(_, _) =>
    case OrderQueued(_) =>
    case SetEditing(_) =>
    case ThreadRemoved(_) =>
  }

  /** In every run at most one call serves the queue, and the flags say which kind. */
  lemma {:induction false} RunSound(steps: seq<Step>) returns (k: Option<nat>)
    ensures Sound(Exec(Initial, steps), k)
  {
    if steps == [] {
      k := None;
    } else {
      k := RunSound(steps[..|steps| - 1]);
      k := NextSound(Exec(Initial, steps[..|steps| - 1]), steps[|steps| - 1], k);
    }
  }

  /** In every interleaving the drain flag and the manual-send flag are never both set. */
  lemma FlagsExclude(steps: seq<Step>)
    ensures var s := Exec(Initial, steps); !(s.sending && s.acting)
  {
    var k := RunSound(steps);
  }
}
