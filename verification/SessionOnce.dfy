/** At most once, exactly: opening a thread is safe for the queue if and only if no manual send is in
    flight whose message still waits. */
module SessionOnce {
  import opened Wrappers
  import opened Keyed
  import opened Session
  import opened SessionSafety
  import opened SessionSelection

  /** Call `c` sends a message by hand that still waits in the queue. */
  predicate SendsWaiting(s: State, c: nat) {
    c in s.calls && s.calls[c].origin.ByHand? && s.calls[c].origin.msg.id in Ids(s.queue.messages)
  }

  ghost predicate HandSendWaiting(s: State) {
    exists c :: SendsWaiting(s, c)
  }

  /** The selection moved on under a manual send whose message still waits. */
  ghost predicate Stale(s: State) {
    exists c :: SendsWaiting(s, c) && s.calls[c].token != s.selection
  }

  /** In the run no thread is opened while a manual send is in flight whose message still waits. */
  ghost predicate Careful(s: State, steps: seq<Step>) {
    forall i :: 0 <= i < |steps| && steps[i].Open? ==> !HandSendWaiting(At(s, steps, i))
  }

  // ----- a careful run sends nothing twice -----

  /** The call that serves the queue keeps its message and token, and no identifier comes back. */
  lemma StaysFresh(s: State, t: State, c: nat)
    requires !Stale(s) && t.selection == s.selection && c in s.calls
    requires forall d :: d in t.calls && t.calls[d].origin.ByHand? ==> d == c
    requires c in t.calls && t.calls[c].origin.ByHand? ==>
      && s.calls[c].origin.ByHand? && t.calls[c].origin.msg == s.calls[c].origin.msg
      && t.calls[c].token == s.calls[c].token
      && (t.calls[c].origin.msg.id in Ids(t.queue.messages) ==> t.calls[c].origin.msg.id in Ids(s.queue.messages))
    ensures !Stale(t)
  {
    if SendsWaiting(t, c) && t.calls[c].token != t.selection {
      assert SendsWaiting(s, c);
    }
  }

  lemma SettleFresh(s: State, c: nat, r: Reply, k: Option<nat>)
    requires Sound(s, k) && OnceInv(s, k) && c in s.calls && !Stale(s)
    ensures !Stale(Resolve(s.(calls := s.calls - {c}), c, s.calls[c], r))
  {
    var call, rest := s.calls[c], s.(calls := s.calls - {c});
    var t := Resolve(rest, c, call, r);
    var l := SettleSound(s, c, r, k);
    if ForQueue(call) {
      var ok := ServingEffect(rest, c, call, r);
      StaysFresh(s, t, c);
    } else {
      OtherEffect(rest, c, call, r);
      if k.Some? {
        StaysFresh(s, t, k.value);
      }
    }
  }

  /** The identifiers in the queue were there before. */
  predicate NoneNew(q: Queue, r: Queue) {
    forall m :: m in r.messages ==> m.id in Ids(q.messages)
  }

  lemma NoneNewIds(q: Queue, r: Queue, id: nat)
    requires NoneNew(q, r) && id in Ids(r.messages)
    ensures id in Ids(q.messages)
  {
    var i :| 0 <= i < |r.messages| && Ids(r.messages)[i] == id;
    assert r.messages[i] in r.messages;
  }

  lemma OtherStepKeeps(s: State, step: Step, k: Option<nat>)
    requires Sound(s, k) && !step.Settle? && !step.SendQueued? && !step.Drain? && !step.Open?
    ensures NoneNew(s.queue, Next(s, step).queue)
    ensures step.Draft? || Next(s, step).selection == s.selection
    ensures step.Draft? ==> Next(s, step).queue.messages == []
  {
    EnsureThreadEffect(s);
    QueuedIds(s.queue.messages);
    if step.EditQueued? {
      QueuedIds(Edit(s.queue.messages, step.id, step.text));
    }
  }

  lemma OtherStepFresh(s: State, step: Step, k: Option<nat>)
    requires Sound(s, k) && !Stale(s) && !step.Settle? && !step.SendQueued? && !step.Drain?
    requires step.Open? ==> !HandSendWaiting(s)
    ensures !Stale(Next(s, step))
  {
    var t := Next(s, step);
    var l := NextSound(s, step, k);
    if c :| SendsWaiting(t, c) && t.calls[c].token != t.selection {
      CalmCalls(s, step, c, k);
      if !step.Open? {
        OtherStepKeeps(s, step, k);
        NoneNewIds(s.queue, t.queue, t.calls[c].origin.msg.id);
      }
      assert SendsWaiting(s, c);
    }
  }

  /** The steps that neither settle a call nor begin one for the queue leave the manual send alone. */
  lemma CalmCalls(s: State, step: Step, c: nat, k: Option<nat>)
    requires Sound(s, k) && !step.Settle? && !step.SendQueued? && !step.Drain?
    requires c in Next(s, step).calls && Next(s, step).calls[c].origin.ByHand?
    ensures c in s.calls && s.calls[c] == Next(s, step).calls[c]
  {
  }

  lemma QueueStepFresh(s: State, step: Step, k: Option<nat>)
    requires Sound(s, k) && !Stale(s) && (step.SendQueued? || step.Drain?)
    ensures !Stale(Next(s, step))
  {
    var t := Next(s, step);
    if step.Drain? {
      var l := DrainSound(s, k);
    } else {
      var l := SendQueuedSound(s, k, step.id, step.side);
    }
  }

  /** A careful step leaves no manual send behind, so nothing leaks. */
  lemma NextFresh(s: State, step: Step, k: Option<nat>)
    requires Sound(s, k) && OnceInv(s, k) && !Stale(s) && !s.queue.leaked
    requires step.Open? ==> !HandSendWaiting(s)
    ensures !Stale(Next(s, step)) && !Next(s, step).queue.leaked
  {
    LeaksExactly(s, step, k);
    if step.Settle? {
      if step.call in s.calls && !Blocked(s, step.call) {
        SettleFresh(s, step.call, step.reply, k);
        assert !SendsWaiting(s, step.call) || s.calls[step.call].token == s.selection;
      }
    } else if step.SendQueued? || step.Drain? {
      QueueStepFresh(s, step, k);
    } else {
      OtherStepFresh(s, step, k);
    }
  }

  lemma {:induction false} CarefulFresh(s: State, steps: seq<Step>, k: Option<nat>) returns (l: Option<nat>)
    requires Sound(s, k) && OnceInv(s, k) && !Stale(s) && !s.queue.leaked && Careful(s, steps)
    ensures var t := Exec(s, steps); Sound(t, l) && OnceInv(t, l) && !Stale(t) && !t.queue.leaked
  {
    l := k;
    if steps != [] {
      var front, step := steps[..|steps| - 1], steps[|steps| - 1];
      forall i | 0 <= i < |front| && front[i].Open?
        ensures !HandSendWaiting(At(s, front, i))
      {
        assert front[..i] == steps[..i] && front[i] == steps[i];
      }
      l := CarefulFresh(s, front, k);
      assert At(s, steps, |front|) == Exec(s, front);
      NextFresh(Exec(s, front), step, l);
      l := NextOnce(Exec(s, front), step, l);
    }
  }

  /** In every run in which no thread is opened while a manual send is in flight whose message still
      waits, each message is handed over at most once, by the drain or by hand, and no message that
      waits was handed over. */
  lemma AtMostOnce(steps: seq<Step>)
    requires Careful(Initial, steps)
    ensures SentOnce(Exec(Initial, steps).queue)
  {
    var k := CarefulFresh(Initial, steps, None);
    OnceMeans(Exec(Initial, steps).queue);
  }

  // ----- a careless open can send twice -----

  /** What a run can rely on to get the view out of the way: a running turn has a thread in view, and a
      read-only view a shown thread. */
  ghost predicate Freeable(s: State) {
    && (s.view.running ==> s.view.viewed.Some?) && (s.view.readOnly ==> s.view.shown.Some?)
    && forall c ::
         c in s.calls && s.calls[c].stage.BeginTurn? && s.calls[c].token == s.selection ==> s.view.viewed.Some?
  }

  /** The manual send was answered after the selection moved on: its message stays in the queue. */
  predicate WentThrough(s: State, id: nat, t: State) {
    t.queue == HandOverByHand(s.queue, id, false) && t.view == s.view && !t.sending && !t.acting
  }

  /** The manual send only has to set the goal. */
  ghost predicate GoalOnly(s: State, t: State, c: nat) {
    && t.queue == s.queue && t.view == s.view && t.selection == s.selection
    && Sound(t, Some(c)) && c in s.calls && t.calls[c].origin.ByHand? && t.calls[c].token == s.calls[c].token
    && s.calls[c].origin.ByHand? && t.calls[c].origin == s.calls[c].origin.(goalAfter := false)
    && t.calls[c].stage.SetGoal?
  }

  const GOOD := Answer("", Some(""))

  lemma SettleByHand(s: State, c: nat)
    requires Sound(s, Some(c)) && s.calls[c].origin.ByHand? && s.calls[c].token != s.selection
    ensures var t := Next(s, Settle(c, GOOD)); WentThrough(s, s.calls[c].origin.msg.id, t) || GoalOnly(s, t, c)
    ensures !s.calls[c].origin.goalAfter ==> WentThrough(s, s.calls[c].origin.msg.id, Next(s, Settle(c, GOOD)))
  {
    var call, rest := s.calls[c], s.(calls := s.calls - {c});
    var k := SettleSound(s, c, GOOD, Some(c));
    var t := Resolve(rest, c, call, GOOD);
    assert t == if call.stage.Fork? then Finish(rest, call.token, call.origin, true)
                else FinishTurn(rest, c, call.token, call.origin);
    SettingGoalEffect(rest, c, call.token, call.origin.(goalAfter := false));
  }

  lemma GoalGoesThrough(s: State, t: State, c: nat)
    requires GoalOnly(s, t, c) && s.calls[c].token != s.selection
    ensures WentThrough(s, s.calls[c].origin.msg.id, Next(t, Settle(c, GOOD)))
  {
    SettleByHand(t, c);
  }

  lemma GoesThrough(s: State, c: nat) returns (steps: seq<Step>)
    requires Sound(s, Some(c)) && s.calls[c].origin.ByHand? && s.calls[c].token != s.selection
    ensures WentThrough(s, s.calls[c].origin.msg.id, Exec(s, steps))
    ensures forall i :: 0 <= i < |steps| ==> !steps[i].Open?
  {
    SettleByHand(s, c);
    var settle := Settle(c, GOOD);
    if WentThrough(s, s.calls[c].origin.msg.id, Next(s, settle)) {
      steps := [settle];
      Exec1(s, settle);
    } else {
      steps := [settle, settle];
      GoalGoesThrough(s, Next(s, settle), c);
      Exec2(s, settle, settle);
    }
  }

  lemma OrderFirst(queue: seq<Message>, id: nat)
    requires id in Ids(queue)
    ensures Reorder(queue, [id]) != [] && Reorder(queue, [id])[0].id == id
  {
    assert Picked(queue, [id]) == [FindLast(queue, id).value] + Picked(queue, []);
  }

  /** The view is out of the way of the drain, and nothing else changed. */
  predicate Freed(s: State, t: State) {
    && !t.view.running && !t.view.readOnly && t.queue == s.queue
    && t.sending == s.sending && t.acting == s.acting
  }

  lemma FreeView(s: State) returns (steps: seq<Step>)
    requires (s.view.running ==> s.view.viewed.Some?) && (s.view.readOnly ==> s.view.shown.Some?)
    ensures Freed(s, Exec(s, steps))
    ensures forall i :: 0 <= i < |steps| ==> !steps[i].Open?
  {
    var viewed := if s.view.viewed.Some? then s.view.viewed.value else "";
    var shown := if s.view.shown.Some? then s.view.shown.value else "";
    steps := Advance(s, [], s, TurnCompletedNote(viewed));
    steps := Advance(s, steps, Next(s, TurnCompletedNote(viewed)), ThreadRemoved(shown));
  }

  lemma BringToFront(s: State, id: nat) returns (steps: seq<Step>)
    requires Freed(s, s) && !s.sending && !s.acting && id in Ids(s.queue.messages)
    ensures var t := Exec(s, steps); t.queue.handed == s.queue.handed && CanDrain(t) && t.queue.messages[0].id == id
    ensures forall i :: 0 <= i < |steps| ==> !steps[i].Open?
  {
    steps := Advance(s, [], s, SetEditing(None));
    steps := Advance(s, steps, Next(s, SetEditing(None)), OrderQueued([id]));
    OrderFirst(s.queue.messages, id);
  }

  lemma DrainsFirst(s: State, front: seq<Step>, t: State) returns (steps: seq<Step>)
    requires t == Exec(s, front) && CanDrain(t) && forall i :: 0 <= i < |front| ==> !front[i].Open?
    ensures Exec(s, steps).queue.handed == t.queue.handed + [Handover(t.queue.messages[0].id, true)]
    ensures forall i :: 0 <= i < |steps| ==> !steps[i].Open?
  {
    steps := Advance(s, front, t, Drain);
  }

  /** Once nothing serves the queue, a waiting message can be brought to the front and drained. */
  lemma DrainsNext(s: State, id: nat) returns (steps: seq<Step>)
    requires !s.sending && !s.acting && id in Ids(s.queue.messages)
    requires (s.view.running ==> s.view.viewed.Some?) && (s.view.readOnly ==> s.view.shown.Some?)
    ensures Exec(s, steps).queue.handed == s.queue.handed + [Handover(id, true)]
    ensures forall i :: 0 <= i < |steps| ==> !steps[i].Open?
  {
    var front := FreeView(s);
    var back := BringToFront(Exec(s, front), id);
    ExecConcat(s, front, back);
    steps := DrainsFirst(s, front + back, Exec(Exec(s, front), back));
  }

  lemma {:induction false} ExecConcat(s: State, front: seq<Step>, back: seq<Step>)
    ensures Exec(s, front + back) == Exec(Exec(s, front), back)
  {
    if back == [] {
      assert front + back == front;
    } else {
      var init, step := back[..|back| - 1], back[|back| - 1];
      ExecConcat(s, front, init);
      assert front + back == (front + init) + [step];
      ExecAppend(s, front + init, step);
    }
  }

  /** `id` was handed over at two places at least. */
  predicate Twice(q: Queue, id: nat) {
    exists i, j :: 0 <= i < j < |q.handed| && q.handed[i].id == q.handed[j].id == id
  }

  /** Once the selection moved on under a manual send whose message still waits, the message can be sent
      by hand and again by the drain, without any other thread being opened. */
  lemma StaleSentTwice(s: State, c: nat, k: Option<nat>) returns (steps: seq<Step>)
    requires Sound(s, k) && Freeable(s) && SendsWaiting(s, c) && s.calls[c].token != s.selection
    ensures Twice(Exec(s, steps).queue, s.calls[c].origin.msg.id)
    ensures forall i :: 0 <= i < |steps| ==> !steps[i].Open?
  {
    var id := s.calls[c].origin.msg.id;
    var front := GoesThrough(s, c);
    var back := DrainsNext(Exec(s, front), id);
    steps := front + back;
    ExecConcat(s, front, back);
    var q, n := Exec(s, steps).queue, |s.queue.handed|;
    assert q.handed[n].id == id && q.handed[n + 1].id == id;
  }

  // ----- the view can always be freed -----

  lemma AwaitFreeable(s: State, c: nat, call: Call)
    requires Freeable(s) && (call.stage.BeginTurn? && call.token == s.selection ==> s.view.viewed.Some?)
    ensures Freeable(Await(s, c, call))
  {
  }

  lemma EnsureFreeable(s: State)
    requires Freeable(s)
    ensures Freeable(EnsureThread(s).0)
  {
  }

  lemma FinishFreeable(s: State, c: nat, token: nat, origin: Origin)
    requires Freeable(s)
    ensures Freeable(SettingGoal(s, c, token, origin)) && Freeable(FinishTurn(s, c, token, origin))
    ensures forall ok :: Freeable(Finish(s, token, origin, ok))
  {
    AwaitFreeable(s, c, Call(token, origin, SetGoal));
    EnsureFreeable(Await(s, c, Call(token, origin, SetGoal)));
    if origin.ByHand? {
      var goal := Call(token, origin.(goalAfter := false), SetGoal);
      AwaitFreeable(s, c, goal);
      EnsureFreeable(Await(s, c, goal));
    }
  }

  lemma BeginTurnFreeable(s: State, c: nat, call: Call, r: Reply)
    requires Freeable(s) && call.stage.BeginTurn? && (call.token == s.selection ==> s.view.viewed.Some?)
    ensures Freeable(ResolveBeginTurn(s, c, call, r))
  {
    FinishFreeable(s, c, call.token, call.origin);
    if r.Answer? && call.token == s.selection {
      FinishFreeable(TurnRunning(s, r.turn), c, call.token, call.origin);
    }
  }

  lemma SelectingFreeable(s: State, c: nat, call: Call, r: Reply)
    requires Freeable(s)
    ensures Freeable(ResolveSelecting(s, c, call, r))
  {
  }

  lemma ResolveFreeable(s: State, c: nat, call: Call, r: Reply)
    requires Freeable(s) && (call.stage.BeginTurn? && call.token == s.selection ==> s.view.viewed.Some?)
    ensures Freeable(Resolve(s, c, call, r))
  {
    if call.stage.BeginTurn? {
      BeginTurnFreeable(s, c, call, r);
    } else if call.stage.Ensure? || call.stage.Steer? {
      SendFreeable(s, c, call, r);
    } else if QueueStage(call.stage) {
      FinishFreeable(s, c, call.token, call.origin);
    } else {
      SelectingFreeable(s, c, call, r);
    }
  }

  lemma SendFreeable(s: State, c: nat, call: Call, r: Reply)
    requires Freeable(s) && (call.stage.Ensure? || call.stage.Steer?)
    ensures Freeable(Resolve(s, c, call, r))
  {
    FinishFreeable(s, c, call.token, Direct);
  }

  lemma NextFreeable(s: State, step: Step, k: Option<nat>)
    requires Sound(s, k) && Freeable(s)
    ensures Freeable(Next(s, step))
  {
    EnsureFreeable(s);
    if step.Settle? && step.call in s.calls && !Blocked(s, step.call) {
      ResolveFreeable(s.(calls := s.calls - {step.call}), step.call, s.calls[step.call], step.reply);
    }
  }

  lemma {:induction false} RunFreeable(steps: seq<Step>)
    ensures Freeable(Exec(Initial, steps))
  {
    if steps != [] {
      var front := steps[..|steps| - 1];
      RunFreeable(front);
      var k := RunSound(front);
      NextFreeable(Exec(Initial, front), steps[|steps| - 1], k);
    }
  }

  // ----- the exact condition -----

  ghost predicate SafeAfter(s: State, more: seq<Step>) {
    Careful(s, more) ==> SentOnce(Exec(s, more).queue)
  }

  /** After any careful run a thread can be opened without the risk of sending a message twice exactly
      when no manual send is in flight whose message still waits. */
  lemma SafeToOpen(steps: seq<Step>, thread: Id, overrides: bool)
    requires Careful(Initial, steps)
    ensures var s := Exec(Initial, steps);
      (forall more :: SafeAfter(Next(s, Open(thread, overrides)), more)) <==> !HandSendWaiting(s)
  {
    var s := Exec(Initial, steps);
    var k := CarefulFresh(Initial, steps, None);
    var t := Next(s, Open(thread, overrides));
    if HandSendWaiting(s) {
      var c :| SendsWaiting(s, c);
      var l := NextSound(s, Open(thread, overrides), k);
      RunFreeable(steps);
      NextFreeable(s, Open(thread, overrides), k);
      var more := StaleSentTwice(t, c, l);
      assert !SafeAfter(t, more);
    } else {
      NextFresh(s, Open(thread, overrides), k);
      var l := NextOnce(s, Open(thread, overrides), k);
      forall more
        ensures SafeAfter(t, more)
      {
        if Careful(t, more) {
          var m := CarefulFresh(t, more, l);
          OnceMeans(Exec(t, more).queue);
        }
      }
    }
  }
}
