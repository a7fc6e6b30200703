/** The session hook as an object: refs and state that each stretch of code between two awaits updates
    in place. Every method is one step of the protocol, or a part of one, and every step keeps the
    invariants that hold over all runs. */
module Hook {
  import opened Wrappers
  import opened Keyed
  import opened Session
  import opened SessionSafety
  import opened SessionQueue
  import opened SessionSelection
  import opened SessionOnce

  /** Step `i` leads from state `i` to the next one. */
  ghost predicate Follows(states: seq<State>, steps: seq<Step>, i: nat) {
    i < |steps| && i + 1 < |states| && states[i + 1] == Next(states[i], steps[i])
  }

  /** The states of a run of the protocol, from the initial one on. */
  ghost predicate IsRun(states: seq<State>, steps: seq<Step>) {
    && |states| == |steps| + 1 && states[0] == Initial
    && forall i :: 0 <= i < |steps| ==> Follows(states, steps, i)
  }

  lemma RunExtends(states: seq<State>, steps: seq<Step>, step: Step)
    requires IsRun(states, steps)
    ensures IsRun(states + [Next(states[|steps|], step)], steps + [step])
  {
    var more := states + [Next(states[|steps|], step)];
    forall i | 0 <= i < |steps + [step]|
      ensures Follows(more, steps + [step], i)
    {
      if i < |steps| {
        assert Follows(states, steps, i);
      }
    }
  }

  lemma {:induction false} RunIsExec(states: seq<State>, steps: seq<Step>)
    requires IsRun(states, steps)
    ensures states[|steps|] == Exec(Initial, steps)
  {
    if steps != [] {
      var n := |steps| - 1;
      var before, front := states[..n + 1], steps[..n];
      forall i | 0 <= i < n
        ensures Follows(before, front, i)
      {
        assert Follows(states, steps, i);
      }
      RunIsExec(before, front);
      assert Follows(states, steps, n);
    }
  }

  /** In a careful run nothing that was handed over waits, and nothing was handed over twice. */
  lemma CarefulRun(states: seq<State>, steps: seq<Step>)
    requires IsRun(states, steps) && Careful(Initial, steps)
    ensures var q := states[|steps|].queue;
      SentOnce(q) && forall id :: id in HandedIds(q.handed) ==> id !in Ids(q.messages)
  {
    RunIsExec(states, steps);
    AtMostOnce(steps);
    var q := states[|steps|].queue;
    forall i, j | 0 <= i < |q.handed| && 0 <= j < |q.messages|
      ensures HandedIds(q.handed)[i] != Ids(q.messages)[j]
    {
      assert q.handed[i] in q.handed && q.messages[j] in q.messages;
    }
  }

  lemma CallsNotNewer(states: seq<State>, steps: seq<Step>)
    requires IsRun(states, steps)
    ensures var s := states[|steps|]; forall c :: c in s.calls ==> s.calls[c].token <= s.selection
  {
    RunIsExec(states, steps);
    var k := RunSound(steps);
  }

  /** An open or start of an earlier selection settles without effect on the view and the queue. */
  predicate OutdatedIgnored(s: State, number: nat, t: State) {
    number in s.calls && s.calls[number].origin.Selecting? && s.calls[number].token != s.selection ==>
      t.view == s.view && t.queue == s.queue
  }

  lemma OutdatedReply(states: seq<State>, steps: seq<Step>, number: nat, reply: Reply)
    requires IsRun(states, steps)
    ensures OutdatedIgnored(states[|steps|], number, Next(states[|steps|], Settle(number, reply)))
  {
    RunIsExec(states, steps);
    var k := RunSound(steps);
    var s := states[|steps|];
    if number in s.calls && s.calls[number].origin.Selecting? && s.calls[number].token != s.selection {
      OutdatedSettle(s, number, reply, k);
    }
  }

  class SessionHook {
    var selection: nat
    var threadId: Option<Id>
    var shownThread: Option<Id>
    var turnId: Option<Id>
    var running: bool
    var readOnly: bool
    var messages: seq<Message>
    var nextMessage: nat
    var editing: Option<nat>
    var queueSend: bool
    var queueAction: bool
    var pendingStart: Option<nat>
    var calls: map<nat, Call>
    var nextCall: nat
    ghost var writes: seq<Write>
    ghost var handed: seq<Handover>
    ghost var leaked: bool
    ghost var states: seq<State>
    ghost var steps: seq<Step>

    ghost function Snapshot(): State
      reads this
    {
      State(selection, View(threadId, shownThread, turnId, running, readOnly, writes),
            Queue(messages, nextMessage, editing, handed, leaked), queueSend, queueAction, pendingStart, calls,
            nextCall)
    }

    ghost predicate Valid()
      reads this
    {
      IsRun(states, steps) && Snapshot() == states[|steps|]
    }

    /** The object only goes through states of the protocol, so what holds over every run holds of it. */
    lemma Invariants() returns (k: Option<nat>)
      requires Valid()
      ensures Snapshot() == Exec(Initial, steps)
      ensures Sound(Snapshot(), k) && OnceInv(Snapshot(), k) && WritesOrdered(Snapshot())
      ensures Careful(Initial, steps) ==> SentOnce(Snapshot().queue)
    {
      RunIsExec(states, steps);
      k := RunOnce(steps);
      RunWrites(steps);
      if Careful(Initial, steps) {
        AtMostOnce(steps);
      }
    }

    constructor ()
      ensures Valid() && Snapshot() == Initial
    {
      selection, threadId, shownThread, turnId, running, readOnly := 0, None, None, None, false, false;
      messages, nextMessage, editing := [], 0, None;
      queueSend, queueAction, pendingStart := false, false, None;
      calls, nextCall := map[], 0;
      writes, handed, leaked := [], [], false;
      states, steps := [Initial], [];
    }

    /** The step just made is part of the run. */
    ghost method Record(step: Step)
      requires IsRun(states, steps) && Snapshot() == Next(states[|steps|], step)
      modifies this`states, this`steps
      ensures Valid() && Snapshot() == old(Snapshot())
      ensures states == old(states) + [Snapshot()] && steps == old(steps) + [step]
    {
      RunExtends(states, steps, step);
      states, steps := states + [Snapshot()], steps + [step];
    }

    // ----- parts of steps -----

    method IssueCall(call: Call) returns (number: nat)
      modifies this`calls, this`nextCall
      ensures number == old(nextCall) && Snapshot() == Issue(old(Snapshot()), call)
    {
      number := nextCall;
      calls := calls[number := call];
      nextCall := nextCall + 1;
    }

    method AwaitCall(number: nat, call: Call)
      modifies this`calls
      ensures Snapshot() == Await(old(Snapshot()), number, call)
    {
      calls := calls[number := call];
    }

    /** The thread for new input: the viewed one, the one being started, or a new one. */
    method EnsureThreadId() returns (waitsFor: Option<nat>)
      modifies this`calls, this`nextCall, this`pendingStart
      ensures (Snapshot(), waitsFor) == EnsureThread(old(Snapshot()))
    {
      if threadId.Some? {
        return None;
      }
      if pendingStart.Some? {
        return pendingStart;
      }
      var number := IssueCall(Call(selection, Selecting, Start));
      pendingStart := Some(number);
      return pendingStart;
    }

    method RequestTurn(number: nat, origin: Origin, withGoal: bool)
      modifies this`calls
      ensures Snapshot() == StartTurn(old(Snapshot()), number, origin, withGoal)
    {
      if threadId.None? {
        AwaitCall(number, Call(selection, origin, Resolved));
        return;
      }
      AwaitCall(number, Call(selection, origin, BeginTurn(threadId.value, withGoal)));
    }

    method RequestGoal(number: nat, token: nat, origin: Origin)
      modifies this`calls, this`nextCall, this`pendingStart
      ensures Snapshot() == SettingGoal(old(Snapshot()), number, token, origin)
    {
      AwaitCall(number, Call(token, origin, SetGoal));
      var _ := EnsureThreadId();
    }

    /** The end of a drain or of a manual send. */
    method FinishCall(token: nat, origin: Origin, ok: bool)
      modifies this`messages, this`queueSend, this`queueAction, this`handed, this`leaked
      ensures Snapshot() == Finish(old(Snapshot()), token, origin, ok)
    {
      match origin {
        case Selecting =>
        case Direct =>
        case FromQueue(_) =>
          queueSend := false;
        case ByHand(m, _) =>
          if ok {
            handed := handed + [Handover(m.id, false)];
            leaked := leaked || (token != selection && m.id in Ids(messages));
            if token == selection {
              messages := Without(messages, m.id);
            }
          }
          queueAction := false;
      }
    }

    method FinishTurnCall(number: nat, token: nat, origin: Origin)
      modifies this`messages, this`queueSend, this`queueAction, this`handed, this`leaked,
               this`calls, this`nextCall, this`pendingStart
      ensures Snapshot() == FinishTurn(old(Snapshot()), number, token, origin)
    {
      if origin.ByHand? && origin.goalAfter && origin.msg.asGoal {
        RequestGoal(number, token, origin.(goalAfter := false));
        return;
      }
      FinishCall(token, origin, true);
    }

    /** Take the first message off the queue and ask for its turn. */
    method SendFirst()
      requires CanDrain(Snapshot())
      modifies this`messages, this`queueSend, this`handed, this`calls, this`nextCall
      ensures Snapshot() == Next(old(Snapshot()), Drain)
      ensures old(nextCall) in calls && calls[old(nextCall)].origin == FromQueue(old(messages)[0])
    {
      var message, number := messages[0], nextCall;
      queueSend := true;
      messages := Without(messages, message.id);
      handed := handed + [Handover(message.id, true)];
      nextCall := nextCall + 1;
      RequestTurn(number, FromQueue(message), message.asGoal);
    }

    /** Ask for the turn of a message that stays in the queue for now, or fork it off, or steer with it. */
    method SendByHand(message: Message, side: bool)
      requires FindMessage(messages, message.id) == Some(message)
      requires threadId.Some? && !queueAction && !queueSend && !readOnly
      modifies this`queueAction, this`calls, this`nextCall
      ensures Snapshot() == Next(old(Snapshot()), SendQueued(message.id, side))
      ensures old(nextCall) in calls && calls[old(nextCall)].origin.ByHand?
      ensures calls[old(nextCall)].origin.msg == message
    {
      queueAction := true;
      var number := nextCall;
      nextCall := nextCall + 1;
      if side {
        AwaitCall(number, Call(selection, ByHand(message, false), Fork));
      } else if turnId.Some? {
        AwaitCall(number, Call(selection, ByHand(message, true), SteerQueued));
      } else {
        RequestTurn(number, ByHand(message, false), message.asGoal);
      }
    }

    /** Point the view at a thread, or at none. */
    method Face(thread: Option<Id>, turn: Option<Id>, isRunning: bool, asReadOnly: bool)
      modifies this`threadId, this`shownThread, this`turnId, this`running, this`readOnly
      ensures Snapshot() == old(Snapshot()).(view := View(thread, thread, turn, isRunning, asReadOnly, writes))
    {
      threadId := thread;
      shownThread := thread;
      turnId := turn;
      running := isRunning;
      readOnly := asReadOnly;
    }

    method ClearQueue()
      modifies this`messages
      ensures Snapshot() == old(Snapshot()).(queue := old(Snapshot()).queue.(messages := []))
    {
      messages := [];
    }

    method Show(token: nat, thread: Id, turn: Option<Id>, asReadOnly: bool)
      modifies this`threadId, this`shownThread, this`turnId, this`running, this`readOnly, this`messages, this`writes
      ensures Snapshot() == ShowThread(old(Snapshot()), token, thread, turn, asReadOnly)
    {
      Face(Some(thread), turn, !asReadOnly && turn.Some?, asReadOnly);
      ClearQueue();
      writes := writes + [Write(token, Some(thread))];
    }

    // ----- what the user does -----

    method OpenThread(thread: Id, overrides: bool)
      requires Valid()
      modifies this
      ensures Valid() && Snapshot() == Next(old(Snapshot()), Open(thread, overrides))
      ensures forall c :: c in old(calls) ==> old(calls)[c].token < selection
    {
      CallsNotNewer(states, steps);
      selection := selection + 1;
      var _ := IssueCall(Call(selection, Selecting, if overrides then Unsubscribe(thread) else Resume(thread)));
      Record(Open(thread, overrides));
    }

    method NewDraft()
      requires Valid()
      modifies this
      ensures Valid() && Snapshot() == Next(old(Snapshot()), Draft)
      ensures forall c :: c in old(calls) ==> old(calls)[c].token < selection
    {
      CallsNotNewer(states, steps);
      selection := selection + 1;
      Face(None, None, false, false);
      ClearQueue();
      writes := writes + [Write(selection, None)];
      Record(Draft);
    }

    /** Choosing the project of a draft resets what is shown, but no ref of the session. */
    method ChooseDraftProject()
      requires Valid()
      modifies this
      ensures Valid() && Snapshot() == Next(old(Snapshot()), ChooseProject)
    {
      shownThread, running, readOnly := None, false, false;
      ClearQueue();
      Record(ChooseProject);
    }

    method SendInput(text: string, asGoal: bool, queueing: bool)
      requires Valid()
      modifies this
      ensures Valid() && Snapshot() == Next(old(Snapshot()), Send(text, asGoal, queueing))
    {
      if readOnly {
        return;
      }
      var waitsFor := EnsureThreadId();
      var _ := IssueCall(Call(selection, Direct, Ensure(text, asGoal, queueing, waitsFor)));
      Record(Send(text, asGoal, queueing));
    }

    /** Setting a goal or starting a review also needs a thread. */
    method PrepareGoalOrReview()
      requires Valid()
      modifies this
      ensures Valid() && Snapshot() == Next(old(Snapshot()), GoalOrReview)
    {
      var _ := EnsureThreadId();
      Record(GoalOrReview);
    }

    /** Send a queued message now: into a side thread, into the running turn, or as a new turn. */
    method SendQueuedMessage(id: nat, side: bool)
      requires Valid()
      modifies this
      ensures Valid() && Snapshot() == Next(old(Snapshot()), SendQueued(id, side))
      ensures Careful(Initial, old(steps)) && id in HandedIds(old(handed)) ==> Snapshot() == old(Snapshot())
      ensures nextCall > old(nextCall) ==>
        && old(nextCall) in calls && calls[old(nextCall)].origin.ByHand?
        && FindMessage(old(messages), id) == Some(calls[old(nextCall)].origin.msg)
    {
      if Careful(Initial, steps) {
        CarefulRun(states, steps);
      }
      var message := FindMessage(messages, id);
      if message.None? || threadId.None? || queueAction || queueSend || readOnly {
        return;
      }
      SendByHand(message.value, side);
      Record(SendQueued(id, side));
    }

    /** The effect that sends the first queued message once nothing runs. */
    method DrainQueue()
      requires Valid()
      modifies this
      ensures Valid() && Snapshot() == Next(old(Snapshot()), Drain)
      ensures CanDrain(old(Snapshot())) ==>
        old(nextCall) in calls && calls[old(nextCall)].origin == FromQueue(old(messages)[0])
      ensures CanDrain(old(Snapshot())) && Careful(Initial, old(steps)) ==>
        old(messages)[0].id !in HandedIds(old(handed))
    {
      if Careful(Initial, steps) {
        CarefulRun(states, steps);
      }
      if queueSend || queueAction || running || readOnly || messages == [] {
        return;
      }
      if editing.Some? && editing.value in Ids(messages) {
        return;
      }
      SendFirst();
      Record(Drain);
    }

    // ----- what the server sends -----

    method TurnStarted(thread: Id, turn: Id)
      requires Valid()
      modifies this
      ensures Valid() && Snapshot() == Next(old(Snapshot()), TurnStartedNote(thread, turn))
    {
      if threadId == Some(thread) {
        turnId, running := Some(turn), true;
      }
      Record(TurnStartedNote(thread, turn));
    }

    method TurnCompleted(thread: Id)
      requires Valid()
      modifies this
      ensures Valid() && Snapshot() == Next(old(Snapshot()), TurnCompletedNote(thread))
    {
      if threadId == Some(thread) {
        turnId, running := None, false;
      }
      Record(TurnCompletedNote(thread));
    }

    method ThreadDeleted(thread: Id)
      requires Valid()
      modifies this
      ensures Valid() && Snapshot() == Next(old(Snapshot()), ThreadRemoved(thread))
    {
      if shownThread == Some(thread) {
        shownThread, readOnly := None, false;
      }
      Record(ThreadRemoved(thread));
    }

    // ----- editing the queue -----

    method QueueRemove(id: nat)
      requires Valid()
      modifies this
      ensures Valid() && Snapshot() == Next(old(Snapshot()), RemoveQueued(id))
    {
      messages := Without(messages, id);
      Record(RemoveQueued(id));
    }

    method QueueEdit(id: nat, text: string)
      requires Valid()
      modifies this
      ensures Valid() && Snapshot() == Next(old(Snapshot()), EditQueued(id, text))
    {
      messages := Edit(messages, id, text);
      Record(EditQueued(id, text));
    }

    method QueueOrder(ids: seq<nat>)
      requires Valid()
      modifies this
      ensures Valid() && Snapshot() == Next(old(Snapshot()), OrderQueued(ids))
      ensures Distinct(Ids(old(messages))) ==> Reordered(old(messages), ids, messages)
    {
      if Distinct(Ids(messages)) {
        ReorderMeaning(messages, ids);
      }
      messages := Picked(messages, ids) + Unnamed(messages, ids);
      Record(OrderQueued(ids));
    }

    method QueueEditing(target: Option<nat>)
      requires Valid()
      modifies this
      ensures Valid() && Snapshot() == Next(old(Snapshot()), SetEditing(target))
    {
      editing := target;
      Record(SetEditing(target));
    }

    // ----- how calls continue when they settle -----

    method ContinueSelecting(number: nat, call: Call, reply: Reply)
      modifies this`calls, this`pendingStart, this`threadId, this`shownThread, this`turnId, this`running,
               this`readOnly, this`messages, this`writes
      ensures Snapshot() == ResolveSelecting(old(Snapshot()), number, call, reply)
    {
      if call.stage.Unsubscribe? {
        AwaitCall(number, call.(stage := Resume(call.stage.thread)));
        return;
      }
      if call.stage.Resume? && reply.FailReadOnly? && call.token == selection {
        AwaitCall(number, call.(stage := Read(call.stage.thread)));
        return;
      }
      if call.stage.Start? && pendingStart == Some(number) {
        pendingStart := None;
      }
      if reply.Answer? && call.token == selection {
        Show(call.token, reply.thread, if call.stage.Start? then None else reply.turn, call.stage.Read?);
      }
    }

    method ContinueSend(number: nat, call: Call, reply: Reply)
      requires call.stage.Ensure?
      modifies this`calls, this`messages, this`nextMessage
      ensures Snapshot() == ResolveEnsure(old(Snapshot()), number, call, reply)
    {
      if !reply.Answer? || call.token != selection {
        return;
      }
      if turnId.Some? && call.stage.queueing {
        messages := messages + [Message(nextMessage, call.stage.text, call.stage.asGoal)];
        nextMessage := nextMessage + 1;
      } else if turnId.Some? {
        AwaitCall(number, Call(call.token, Direct, Steer(call.stage.asGoal, false)));
      } else {
        RequestTurn(number, Direct, call.stage.asGoal);
      }
    }

    method ContinueSteer(number: nat, call: Call, reply: Reply)
      requires call.stage.Steer?
      modifies this`calls, this`nextCall, this`pendingStart, this`turnId
      ensures Snapshot() == ResolveSteer(old(Snapshot()), number, call, reply)
    {
      if reply.Answer? {
        if call.stage.asGoal {
          RequestGoal(number, call.token, Direct);
        }
      } else if reply.FailNoTurn? {
        turnId := None;
        RequestTurn(number, Direct, call.stage.asGoal);
      } else if reply.FailMismatch? && !call.stage.retried {
        turnId := Some(reply.found);
        AwaitCall(number, Call(call.token, Direct, Steer(call.stage.asGoal, true)));
      }
    }

    method ContinueSteerQueued(number: nat, call: Call, reply: Reply)
      modifies this`messages, this`queueSend, this`queueAction, this`handed, this`leaked,
               this`calls, this`nextCall, this`pendingStart, this`turnId
      ensures Snapshot() == ResolveSteerQueued(old(Snapshot()), number, call, reply)
    {
      if reply.Answer? {
        FinishTurnCall(number, call.token, call.origin);
      } else if reply.FailNoTurn? && call.token == selection {
        turnId := None;
        RequestTurn(number, call.origin, false);
      } else {
        FinishCall(call.token, call.origin, false);
      }
    }

    method ContinueTurn(number: nat, call: Call, reply: Reply)
      requires call.stage.BeginTurn?
      modifies this`messages, this`queueSend, this`queueAction, this`handed, this`leaked,
               this`calls, this`nextCall, this`pendingStart, this`turnId, this`running
      ensures Snapshot() == ResolveBeginTurn(old(Snapshot()), number, call, reply)
    {
      if !reply.Answer? || reply.turn.None? {
        FinishCall(call.token, call.origin, false);
        return;
      }
      if call.token == selection {
        turnId, running := reply.turn, true;
        if call.stage.withGoal {
          RequestGoal(number, call.token, call.origin);
          return;
        }
      }
      FinishTurnCall(number, call.token, call.origin);
    }

    method Continue(number: nat, call: Call, reply: Reply)
      modifies this`messages, this`nextMessage, this`queueSend, this`queueAction, this`handed, this`leaked,
               this`calls, this`nextCall, this`pendingStart, this`threadId, this`shownThread, this`turnId,
               this`running, this`readOnly, this`writes
      ensures Snapshot() == Resolve(old(Snapshot()), number, call, reply)
    {
      if call.stage.Ensure? {
        ContinueSend(number, call, reply);
      } else if call.stage.Steer? {
        ContinueSteer(number, call, reply);
      } else if call.stage.SteerQueued? {
        ContinueSteerQueued(number, call, reply);
      } else if call.stage.Fork? {
        FinishCall(call.token, call.origin, reply.Answer?);
      } else if call.stage.BeginTurn? {
        ContinueTurn(number, call, reply);
      } else if call.stage.SetGoal? || call.stage.Resolved? {
        FinishTurnCall(number, call.token, call.origin);
      } else {
        ContinueSelecting(number, call, reply);
      }
    }

    /** A request in flight settles, and the code that waits for it goes on to its next await. */
    method SettleCall(number: nat, reply: Reply)
      requires Valid()
      modifies this
      ensures Valid() && Snapshot() == Next(old(Snapshot()), Settle(number, reply))
      ensures OutdatedIgnored(old(Snapshot()), number, Snapshot())
    {
      OutdatedReply(states, steps, number, reply);
      if number !in calls {
        return;
      }
      var call := calls[number];
      if call.stage.Ensure? && call.stage.waitsFor.Some? && call.stage.waitsFor.value in calls {
        return;
      }
      calls := calls - {number};
      Continue(number, call, reply);
      Record(Settle(number, reply));
    }
  }
}
