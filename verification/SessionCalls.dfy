/** Every request in flight stands for what some step asked for: the thread opened, the text sent, the
    message taken from the queue. */
module SessionCalls {
  import opened Wrappers
  import opened Keyed
  import opened Session
  import opened SessionSafety
  import opened SessionSelection

  // ----- what a step asks for -----

  /** A goal is set exactly for a goal message: with the turn, or after it. */
  predicate GoalDue(stage: Stage, msg: Message, after: bool) {
    && (stage.BeginTurn? ==> stage.withGoal == (msg.asGoal && !after))
    && (stage.SetGoal? ==> msg.asGoal && !after) && (stage.SteerQueued? ==> after)
  }

  /** `call` is in the service of `step`, which was taken in `s`. */
  predicate Serves(s: State, step: Step, call: Call) {
    match step
    case Open(thread, overrides) =>
      && call.origin.Selecting? && call.token == s.selection + 1
      && (|| (call.stage == Unsubscribe(thread) && overrides)
          || call.stage == Resume(thread) || call.stage == Read(thread))
    case Send(text, asGoal, queueing) =>
      && call.origin.Direct?
      && (|| (call.stage.Ensure? && call.stage.text == text && call.stage.asGoal == asGoal
              && call.stage.queueing == queueing)
          || (call.stage.Steer? && call.stage.asGoal == asGoal)
          || (call.stage.BeginTurn? && call.stage.withGoal == asGoal)
          || (call.stage.SetGoal? && asGoal) || call.stage.Resolved?)
    case SendQueued(id, side) =>
      && call.origin.ByHand? && FindMessage(s.queue.messages, id) == Some(call.origin.msg)
      && (side <==> call.stage.Fork?) && QueueStage(call.stage)
      && GoalDue(call.stage, call.origin.msg, call.origin.goalAfter)
    case Drain =>
      && call.origin.FromQueue? && s.queue.messages != [] && call.origin.msg == s.queue.messages[0]
      && (call.stage.BeginTurn? || call.stage.SetGoal? || call.stage.Resolved?)
      && GoalDue(call.stage, call.origin.msg, false)
    case _ => false
  }

  /** A start of a thread, which any step that needs one shares. */
  predicate IsStart(call: Call) { call.origin.Selecting? && call.stage.Start? }

  /** Besides call `d`, only starts are new in `t`. */
  ghost predicate OnlyStarts(s: State, d: nat, t: State) {
    forall c :: c in t.calls && c !in s.calls && c != d ==> IsStart(t.calls[c])
  }

  lemma GoalStarts(s: State, d: nat, token: nat, origin: Origin)
    ensures OnlyStarts(s, d, SettingGoal(s, d, token, origin))
  {
  }

  lemma FinishStarts(s: State, d: nat, call: Call)
    ensures OnlyStarts(s, d, FinishTurn(s, d, call.token, call.origin))
    ensures forall ok :: OnlyStarts(s, d, Finish(s, call.token, call.origin, ok))
  {
    if call.origin.ByHand? {
      GoalStarts(s, d, call.token, call.origin.(goalAfter := false));
    }
  }

  lemma BeginTurnStarts(s: State, d: nat, call: Call, r: Reply)
    requires call.stage.BeginTurn?
    ensures OnlyStarts(s, d, ResolveBeginTurn(s, d, call, r))
  {
    FinishStarts(s, d, call);
    if r.Answer? {
      FinishStarts(TurnRunning(s, r.turn), d, call);
      GoalStarts(TurnRunning(s, r.turn), d, call.token, call.origin);
    }
  }

  lemma SendStarts(s: State, d: nat, call: Call, r: Reply)
    requires call.stage.Ensure? || call.stage.Steer?
    ensures OnlyStarts(s, d, Resolve(s, d, call, r))
  {
    GoalStarts(s, d, call.token, Direct);
  }

  /** A call that settles starts no other request, except perhaps of a thread. */
  lemma ResolveStarts(s: State, d: nat, call: Call, r: Reply)
    ensures OnlyStarts(s, d, Resolve(s, d, call, r))
  {
    if call.stage.BeginTurn? {
      BeginTurnStarts(s, d, call, r);
    } else if call.stage.Ensure? || call.stage.Steer? {
      SendStarts(s, d, call, r);
    } else {
      FinishStarts(s, d, call);
    }
  }

  /** A call that a step puts in flight is a start or serves that step. */
  lemma NewServes(s: State, step: Step, c: nat, k: Option<nat>)
    requires Sound(s, k) && c !in s.calls && c in Next(s, step).calls
    ensures IsStart(Next(s, step).calls[c]) || Serves(s, step, Next(s, step).calls[c])
  {
    if step.Settle? && step.call in s.calls && !Blocked(s, step.call) {
      ResolveStarts(s.(calls := s.calls - {step.call}), step.call, s.calls[step.call], step.reply);
    }
  }

  // ----- a call keeps serving its step -----

  lemma FinishServes(s: State, d: nat, call: Call, from: State, step: Step)
    requires Serves(from, step, call) && ForQueue(call) && d !in s.calls && d < s.nextCall && !call.stage.Fork?
    requires !(call.stage.BeginTurn? && call.stage.withGoal)
    ensures var t := FinishTurn(s, d, call.token, call.origin); d in t.calls ==> Serves(from, step, t.calls[d])
    ensures forall ok :: d !in Finish(s, call.token, call.origin, ok).calls
  {
    if call.origin.ByHand? {
      SettingGoalEffect(s, d, call.token, call.origin.(goalAfter := false));
    }
  }

  lemma BeginTurnServes(s: State, d: nat, call: Call, r: Reply, from: State, step: Step)
    requires Serves(from, step, call) && call.stage.BeginTurn? && d !in s.calls && d < s.nextCall
    ensures var t := ResolveBeginTurn(s, d, call, r); d in t.calls ==> Serves(from, step, t.calls[d])
  {
    var s1 := TurnRunning(s, if r.Answer? then r.turn else None);
    if ForQueue(call) && !call.stage.withGoal {
      FinishServes(s, d, call, from, step);
      FinishServes(s1, d, call, from, step);
    } else if ForQueue(call) {
      FinishGoal(s, d, call);
      SettingGoalEffect(s1, d, call.token, call.origin);
    } else {
      FinishOther(s, d, call);
      FinishOther(s1, d, call);
      SettingGoalEffect(s1, d, call.token, call.origin);
    }
  }

  /** A send that set the goal with its turn ends without setting it again. */
  lemma FinishGoal(s: State, d: nat, call: Call)
    requires ForQueue(call) && d !in s.calls
    requires call.origin.ByHand? ==> !call.origin.goalAfter || !call.origin.msg.asGoal
    ensures d !in FinishTurn(s, d, call.token, call.origin).calls
    ensures forall ok :: d !in Finish(s, call.token, call.origin, ok).calls
  {
  }

  lemma SendServes(s: State, d: nat, call: Call, r: Reply, from: State, step: Step)
    requires Serves(from, step, call) && (call.stage.Ensure? || call.stage.Steer?) && d !in s.calls && d < s.nextCall
    ensures var t := Resolve(s, d, call, r); d in t.calls ==> Serves(from, step, t.calls[d])
  {
    SettingGoalEffect(s, d, call.token, Direct);
  }

  lemma QueueServes(s: State, d: nat, call: Call, r: Reply, from: State, step: Step)
    requires Serves(from, step, call) && (call.stage.SteerQueued? || call.stage.Fork?)
    requires d !in s.calls && d < s.nextCall
    ensures var t := Resolve(s, d, call, r); d in t.calls ==> Serves(from, step, t.calls[d])
  {
    if call.stage.SteerQueued? {
      FinishServes(s, d, call, from, step);
    }
  }

  lemma DoneServes(s: State, d: nat, call: Call, r: Reply, from: State, step: Step)
    requires Serves(from, step, call) && (call.stage.SetGoal? || call.stage.Resolved?)
    requires d !in s.calls && d < s.nextCall
    ensures var t := Resolve(s, d, call, r); d in t.calls ==> Serves(from, step, t.calls[d])
  {
    if ForQueue(call) {
      FinishServes(s, d, call, from, step);
    } else {
      FinishOther(s, d, call);
    }
  }

  lemma ResolveServes(s: State, d: nat, call: Call, r: Reply, from: State, step: Step)
    requires Serves(from, step, call) && d !in s.calls && d < s.nextCall
    ensures var t := Resolve(s, d, call, r); d in t.calls ==> Serves(from, step, t.calls[d])
  {
    if call.stage.BeginTurn? {
      BeginTurnServes(s, d, call, r, from, step);
    } else if call.stage.Ensure? || call.stage.Steer? {
      SendServes(s, d, call, r, from, step);
    } else if call.stage.SteerQueued? || call.stage.Fork? {
      QueueServes(s, d, call, r, from, step);
    } else if call.stage.SetGoal? || call.stage.Resolved? {
      DoneServes(s, d, call, r, from, step);
    }
  }

  // ----- over every run -----

  lemma NextServes(s: State, step: Step, c: nat, k: Option<nat>, from: State, first: Step)
    requires Sound(s, k) && c in s.calls && c in Next(s, step).calls && Serves(from, first, s.calls[c])
    ensures Serves(from, first, Next(s, step).calls[c])
  {
    if step.Settle? && step.call == c {
      if !Blocked(s, c) {
        ResolveServes(s.(calls := s.calls - {c}), c, s.calls[c], step.reply, from, first);
      }
    } else {
      CallStays(s, step, c, k);
    }
  }

  /** A start stays a start. */
  lemma StartStays(s: State, step: Step, c: nat, k: Option<nat>)
    requires Sound(s, k) && c in s.calls && c in Next(s, step).calls && IsStart(s.calls[c])
    ensures IsStart(Next(s, step).calls[c])
  {
    if !(step.Settle? && step.call == c) {
      CallStays(s, step, c, k);
    }
  }

  /** Step `i` of the run put call `c` in flight, and `call` still serves it. */
  ghost predicate Issued(steps: seq<Step>, i: nat, c: nat, call: Call) {
    && i < |steps| && c !in At(Initial, steps, i).calls && c in At(Initial, steps, i + 1).calls
    && Serves(At(Initial, steps, i), steps[i], call)
  }

  lemma IssuedEarlier(steps: seq<Step>, i: nat, c: nat, call: Call)
    requires steps != [] && Issued(steps[..|steps| - 1], i, c, call)
    ensures Issued(steps, i, c, call)
  {
    var front := steps[..|steps| - 1];
    assert front[..i] == steps[..i] && front[..i + 1] == steps[..i + 1] && front[i] == steps[i];
  }

  /** In every run each call in flight, unless it is a start of a thread, serves the step that issued it:
      the thread opened there, the text and goal sent there, or the message that was waiting there. */
  lemma {:induction false} CallsServe(steps: seq<Step>, c: nat) returns (i: nat)
    requires c in Exec(Initial, steps).calls && !IsStart(Exec(Initial, steps).calls[c])
    ensures Issued(steps, i, c, Exec(Initial, steps).calls[c])
  {
    var n := |steps| - 1;
    var front, step := steps[..n], steps[n];
    var s := Exec(Initial, front);
    var k := RunSound(front);
    assert steps[..n + 1] == steps;
    if c in s.calls {
      if IsStart(s.calls[c]) {
        StartStays(s, step, c, k);
      }
      i := CallsServe(front, c);
      NextServes(s, step, c, k, At(Initial, front, i), front[i]);
      IssuedEarlier(steps, i, c, Exec(Initial, steps).calls[c]);
    } else {
      NewServes(s, step, c, k);
      i := n;
    }
  }

  /** At most one start of a thread is in flight, and it is the one that sends wait for. */
  ghost predicate OneStart(s: State) {
    && (forall c :: c in s.calls && s.calls[c].stage.Start? ==> s.pendingStart == Some(c))
    && (s.pendingStart.Some? ==> s.pendingStart.value in s.calls && s.calls[s.pendingStart.value].stage.Start?)
  }

  lemma AwaitOneStart(s: State, d: nat, call: Call)
    requires OneStart(s) && d !in s.calls && !call.stage.Start?
    ensures OneStart(Await(s, d, call))
  {
  }

  lemma EnsureOneStart(s: State)
    requires OneStart(s) && s.nextCall !in s.calls
    ensures OneStart(EnsureThread(s).0)
  {
  }

  lemma FinishOneStart(s: State, d: nat, token: nat, origin: Origin)
    requires OneStart(s) && d !in s.calls && d < s.nextCall && s.nextCall !in s.calls
    ensures OneStart(SettingGoal(s, d, token, origin)) && OneStart(FinishTurn(s, d, token, origin))
    ensures forall ok :: OneStart(Finish(s, token, origin, ok))
  {
    AwaitOneStart(s, d, Call(token, origin, SetGoal));
    EnsureOneStart(Await(s, d, Call(token, origin, SetGoal)));
    if origin.ByHand? {
      var goal := Call(token, origin.(goalAfter := false), SetGoal);
      AwaitOneStart(s, d, goal);
      EnsureOneStart(Await(s, d, goal));
    }
  }

  lemma BeginTurnOneStart(s: State, d: nat, call: Call, r: Reply)
    requires OneStart(s) && call.stage.BeginTurn? && d !in s.calls && d < s.nextCall && s.nextCall !in s.calls
    ensures OneStart(ResolveBeginTurn(s, d, call, r))
  {
    FinishOneStart(s, d, call.token, call.origin);
    if r.Answer? {
      FinishOneStart(TurnRunning(s, r.turn), d, call.token, call.origin);
    }
  }

  lemma SendOneStart(s: State, d: nat, call: Call, r: Reply)
    requires OneStart(s) && (call.stage.Ensure? || call.stage.Steer?)
    requires d !in s.calls && d < s.nextCall && s.nextCall !in s.calls
    ensures OneStart(Resolve(s, d, call, r))
  {
    var asGoal := call.stage.asGoal;
    if call.stage.Ensure? {
      AwaitOneStart(s, d, Call(call.token, Direct, Steer(asGoal, false)));
      AwaitOneStart(s, d, StartTurn(s, d, Direct, asGoal).calls[d]);
    } else if r.Answer? {
      FinishOneStart(s, d, call.token, Direct);
    } else {
      AwaitOneStart(SetTurn(s, None), d, StartTurn(SetTurn(s, None), d, Direct, asGoal).calls[d]);
      AwaitOneStart(s, d, Call(call.token, Direct, Steer(asGoal, true)));
    }
  }

  lemma SelectingOneStart(s: State, d: nat, call: Call, r: Reply)
    requires OneStart(s.(calls := s.calls[d := call])) && d !in s.calls
    requires call.stage.Unsubscribe? || call.stage.Resume? || call.stage.Read? || call.stage.Start?
    ensures OneStart(ResolveSelecting(s, d, call, r))
  {
    assert s.calls[d := call][d] == call;
    if !call.stage.Start? {
      assert OneStart(s);
      AwaitOneStart(s, d, call.(stage := Resume("")));
    }
  }

  lemma OtherOneStart(s: State, d: nat, call: Call, r: Reply)
    requires OneStart(s) && d !in s.calls && d < s.nextCall && s.nextCall !in s.calls
    requires call.stage.BeginTurn? || call.stage.Ensure? || call.stage.Steer? || QueueStage(call.stage)
    ensures OneStart(Resolve(s, d, call, r))
  {
    if call.stage.BeginTurn? {
      BeginTurnOneStart(s, d, call, r);
    } else if call.stage.Ensure? || call.stage.Steer? {
      SendOneStart(s, d, call, r);
    } else {
      FinishOneStart(s, d, call.token, call.origin);
      if call.stage.SteerQueued? {
        AwaitOneStart(SetTurn(s, None), d, StartTurn(SetTurn(s, None), d, call.origin, false).calls[d]);
      }
    }
  }

  lemma WithoutOneStart(s: State, d: nat)
    requires OneStart(s) && d in s.calls && !s.calls[d].stage.Start?
    ensures OneStart(s.(calls := s.calls - {d}))
  {
  }

  lemma SettleOneStart(s: State, d: nat, r: Reply, k: Option<nat>)
    requires Sound(s, k) && OneStart(s) && d in s.calls
    ensures OneStart(Resolve(s.(calls := s.calls - {d}), d, s.calls[d], r))
  {
    var call, rest := s.calls[d], s.(calls := s.calls - {d});
    if call.stage.Unsubscribe? || call.stage.Resume? || call.stage.Read? || call.stage.Start? {
      assert rest.(calls := rest.calls[d := call]) == s;
      SelectingOneStart(rest, d, call, r);
    } else {
      WithoutOneStart(s, d);
      OtherOneStart(rest, d, call, r);
    }
  }

  lemma IssueOneStart(s: State, call: Call)
    requires OneStart(s) && s.nextCall !in s.calls && !call.stage.Start?
    ensures OneStart(Issue(s, call))
  {
    AwaitOneStart(s, s.nextCall, call);
  }

  lemma PlainOneStart(s: State, step: Step, k: Option<nat>)
    requires Sound(s, k) && OneStart(s) && !step.Settle? && !step.Send?
    ensures OneStart(Next(s, step))
  {
    EnsureOneStart(s);
  }

  lemma NextOneStart(s: State, step: Step, k: Option<nat>)
    requires Sound(s, k) && OneStart(s)
    ensures OneStart(Next(s, step))
  {
    if step.Settle? {
      if step.call in s.calls && !Blocked(s, step.call) {
        SettleOneStart(s, step.call, step.reply, k);
      }
    } else if step.Send? {
      EnsureOneStart(s);
      EnsureThreadKeeps(s, k);
      var (s1, waitsFor) := EnsureThread(s);
      IssueOneStart(s1, Call(s.selection, Direct, Ensure(step.text, step.asGoal, step.queueing, waitsFor)));
    } else {
      PlainOneStart(s, step, k);
    }
  }

  /** In every run at most one start of a thread is in flight, which all sends without a thread share. */
  lemma {:induction false} RunOneStart(steps: seq<Step>)
    ensures OneStart(Exec(Initial, steps))
  {
    if steps != [] {
      var front := steps[..|steps| - 1];
      RunOneStart(front);
      var k := RunSound(front);
      NextOneStart(Exec(Initial, front), steps[|steps| - 1], k);
    }
  }

  // ----- the thread a turn is requested for -----

  /** A turn request that was not there before is for the thread in view, under the current selection. */
  predicate ForViewed(s: State, d: nat, t: State) {
    d in t.calls && t.calls[d].stage.BeginTurn? && !(d in s.calls && s.calls[d].stage.BeginTurn?) ==>
      t.view.viewed == Some(t.calls[d].stage.thread) && t.calls[d].token == t.selection
  }

  lemma SendForViewed(s: State, d: nat, call: Call, r: Reply)
    requires d !in s.calls && d < s.nextCall && (call.stage.Ensure? || call.stage.Steer?)
    ensures ForViewed(s, d, Resolve(s, d, call, r))
  {
    SettingGoalEffect(s, d, call.token, Direct);
  }

  lemma FinishForViewed(s: State, d: nat, call: Call)
    requires d !in s.calls && d < s.nextCall
    ensures ForViewed(s, d, FinishTurn(s, d, call.token, call.origin))
    ensures forall ok :: ForViewed(s, d, Finish(s, call.token, call.origin, ok))
  {
    if call.origin.ByHand? {
      SettingGoalEffect(s, d, call.token, call.origin.(goalAfter := false));
    }
  }

  lemma SelectingForViewed(s: State, d: nat, call: Call, r: Reply)
    requires d !in s.calls
    ensures ForViewed(s, d, ResolveSelecting(s, d, call, r))
  {
  }

  lemma ResolveForViewed(s: State, d: nat, call: Call, r: Reply)
    requires d !in s.calls && d < s.nextCall && !call.stage.BeginTurn?
    ensures ForViewed(s, d, Resolve(s, d, call, r))
  {
    if call.stage.Ensure? || call.stage.Steer? {
      SendForViewed(s, d, call, r);
    } else if QueueStage(call.stage) {
      FinishForViewed(s, d, call);
    } else {
      SelectingForViewed(s, d, call, r);
    }
  }

  /** Whatever step requests a turn, it is for the thread then in view. */
  lemma TurnForViewed(s: State, step: Step, d: nat, k: Option<nat>)
    requires Sound(s, k)
    ensures ForViewed(s, d, Next(s, step))
  {
    if step.Settle? && step.call in s.calls && !Blocked(s, step.call) {
      if step.call == d && !s.calls[d].stage.BeginTurn? {
        ResolveForViewed(s.(calls := s.calls - {d}), d, s.calls[d], step.reply);
      } else if d in s.calls && d != step.call {
        CallStays(s, step, d, k);
      } else if d !in s.calls && d in Next(s, step).calls {
        NewServes(s, step, d, k);
      }
    } else {
      EnsureThreadEffect(s);
    }
  }
}
