/** Over every run: drains are separated, the latest selection decides the view, and a turn reply is
    filed under the thread it was started on exactly when no selection is pending. */
module SessionSelection {
  import opened Wrappers
  import opened Keyed
  import opened Session
  import opened SessionSafety

  /** The state before step `i` of a run from `s`. */
  function At(s: State, steps: seq<Step>, i: nat): State
    requires i <= |steps|
  {
    Exec(s, steps[..i])
  }

  lemma AtStep(s: State, steps: seq<Step>, i: nat)
    requires i < |steps|
    ensures At(s, steps, i + 1) == Next(At(s, steps, i), steps[i])
  {
    assert steps[..i + 1] == steps[..i] + [steps[i]];
    ExecAppend(s, steps[..i], steps[i]);
  }

  /** A call in flight stays as it is until it settles itself. */
  lemma CallStays(s: State, step: Step, c: nat, k: Option<nat>)
    requires Sound(s, k) && c in s.calls && !(step.Settle? && step.call == c)
    ensures c in Next(s, step).calls && Next(s, step).calls[c] == s.calls[c]
  {
    EnsureThreadEffect(s);
    if step.Settle? && step.call in s.calls {
      var d, rest := step.call, s.(calls := s.calls - {step.call});
      if ForQueue(s.calls[d]) {
        var ok := ServingEffect(rest, d, s.calls[d], step.reply);
      } else {
        OtherEffect(rest, d, s.calls[d], step.reply);
      }
    }
  }

  // ----- drains -----

  predicate Drains(steps: seq<Step>, i: nat)
    requires i < |steps|
  {
    steps[i].Drain? && CanDrain(At(Initial, steps, i))
  }

  predicate InFlight(s: State, c: nat) {
    c in s.calls && s.calls[c].origin.FromQueue?
  }

  /** The call of a drain ends only by settling. */
  lemma DrainCallEnds(s: State, step: Step, c: nat, k: Option<nat>)
    requires Sound(s, k) && InFlight(s, c) && !InFlight(Next(s, step), c)
    ensures step.Settle? && step.call == c && c !in Next(s, step).calls
  {
    if !(step.Settle? && step.call == c) {
      CallStays(s, step, c, k);
    } else {
      var ok := ServingEffect(s.(calls := s.calls - {c}), c, s.calls[c], step.reply);
    }
  }

  lemma {:induction false} FirstEnd(steps: seq<Step>, i: nat, j: nat, c: nat) returns (m: nat)
    requires i <= j <= |steps|
    requires InFlight(At(Initial, steps, i), c) && !InFlight(At(Initial, steps, j), c)
    ensures i <= m < j && InFlight(At(Initial, steps, m), c) && !InFlight(At(Initial, steps, m + 1), c)
    decreases j - i
  {
    if InFlight(At(Initial, steps, i + 1), c) {
      m := FirstEnd(steps, i + 1, j, c);
    } else {
      m := i;
    }
  }

  /** A second drain happens only after the turn request of the first one has settled for good. */
  lemma SecondDrainWaits(steps: seq<Step>, i: nat, j: nat) returns (m: nat)
    requires i < j < |steps| && Drains(steps, i) && Drains(steps, j)
    ensures var c := At(Initial, steps, i).nextCall;
      && i < m < j && steps[m].Settle? && steps[m].call == c
      && InFlight(At(Initial, steps, m), c) && c !in At(Initial, steps, m + 1).calls
  {
    var s := At(Initial, steps, i);
    var c := s.nextCall;
    var k := RunSound(steps[..i]);
    k := DrainSound(s, k);
    AtStep(Initial, steps, i);
    var l := RunSound(steps[..j]);
    m := FirstEnd(steps, i + 1, j, c);
    k := RunSound(steps[..m]);
    AtStep(Initial, steps, m);
    DrainCallEnds(At(Initial, steps, m), steps[m], c, k);
  }

  /** The steps that can clear the running flag: the turn in view completes, a draft begins or is given a
      project, or a thread is shown by a reply to the current selection. */
  predicate Clearing(s: State, step: Step) {
    || (step.TurnCompletedNote? && s.view.viewed == Some(step.thread))
    || step.Draft? || step.ChooseProject?
    || (step.Settle? && step.call in s.calls && s.calls[step.call].origin.Selecting?
        && s.calls[step.call].token == s.selection)
  }

  /** The same thread is shown, and a running turn still runs. */
  predicate ViewKept(v: View, w: View) {
    && v.viewed == w.viewed && v.shown == w.shown && v.readOnly == w.readOnly && v.writes == w.writes
    && (v.running ==> w.running)
  }

  lemma GoalKeepsView(s: State, c: nat, token: nat, origin: Origin)
    ensures SettingGoal(s, c, token, origin).view == s.view
    ensures SettingGoal(s, c, token, origin).selection == s.selection
  {
  }

  lemma FinishKeepsView(s: State, c: nat, call: Call)
    ensures FinishTurn(s, c, call.token, call.origin).view == s.view
    ensures forall ok :: Finish(s, call.token, call.origin, ok).view == s.view
  {
    if call.origin.ByHand? {
      GoalKeepsView(s, c, call.token, call.origin.(goalAfter := false));
    }
  }

  lemma BeginTurnView(s: State, c: nat, call: Call, r: Reply)
    requires call.stage.BeginTurn?
    ensures ResolveBeginTurn(s, c, call, r).view
         == if r.Answer? && r.turn.Some? && call.token == s.selection then TurnRunning(s, r.turn).view else s.view
  {
    FinishKeepsView(s, c, call);
    if r.Answer? {
      FinishKeepsView(TurnRunning(s, r.turn), c, call);
      GoalKeepsView(TurnRunning(s, r.turn), c, call.token, call.origin);
    }
  }

  lemma SendView(s: State, c: nat, call: Call, r: Reply)
    requires call.stage.Ensure? || call.stage.Steer?
    ensures var t := Resolve(s, c, call, r);
      ViewKept(s.view, t.view) && (call.token != s.selection && !call.stage.Steer? ==> t.view == s.view)
  {
    GoalKeepsView(s, c, call.token, Direct);
  }

  lemma ServedView(s: State, c: nat, call: Call, r: Reply)
    requires call.stage.SteerQueued? || call.stage.Fork? || call.stage.SetGoal? || call.stage.Resolved?
    ensures var t := Resolve(s, c, call, r); ViewKept(s.view, t.view) && (!call.stage.SteerQueued? ==> t.view == s.view)
  {
    FinishKeepsView(s, c, call);
  }

  lemma SelectingView(s: State, c: nat, call: Call, r: Reply)
    requires call.origin.Selecting? && Fits(call)
    ensures call.token != s.selection ==> ResolveSelecting(s, c, call, r).view == s.view
  {
  }

  /** Only a reply to the current selection replaces the view; a reply to an older one changes nothing
      of it, except that a steering send may still move the turn it aims at. */
  lemma ResolveView(s: State, c: nat, call: Call, r: Reply)
    requires Fits(call)
    ensures var t := Resolve(s, c, call, r);
      && (!(call.origin.Selecting? && call.token == s.selection) ==> ViewKept(s.view, t.view))
      && (call.token != s.selection && !call.stage.Steer? && !call.stage.SteerQueued? ==> t.view == s.view)
  {
    if call.origin.Selecting? {
      SelectingView(s, c, call, r);
    } else if call.stage.BeginTurn? {
      BeginTurnView(s, c, call, r);
    } else if call.stage.Ensure? || call.stage.Steer? {
      SendView(s, c, call, r);
    } else {
      ServedView(s, c, call, r);
    }
  }

  lemma NextView(s: State, step: Step, k: Option<nat>)
    requires Sound(s, k) && !Clearing(s, step)
    ensures s.view.running ==> Next(s, step).view.running
  {
    EnsureThreadEffect(s);
    if step.Settle? && step.call in s.calls && !Blocked(s, step.call) {
      ResolveView(s.(calls := s.calls - {step.call}), step.call, s.calls[step.call], step.reply);
    }
  }

  /** The steps that can set the running flag: a turn starts in the thread in view, or a reply to the current
      selection or a turn requested under it. */
  predicate Setting(s: State, step: Step) {
    || (step.TurnStartedNote? && s.view.viewed == Some(step.thread))
    || (step.Settle? && step.call in s.calls && step.reply.Answer? && step.reply.turn.Some?
        && s.calls[step.call].token == s.selection
        && (s.calls[step.call].origin.Selecting? || s.calls[step.call].stage.BeginTurn?))
  }

  lemma SettleSetsRunning(s: State, c: nat, call: Call, r: Reply)
    requires Fits(call) && !s.view.running && Resolve(s, c, call, r).view.running
    ensures r.Answer? && r.turn.Some? && call.token == s.selection && (call.origin.Selecting? || call.stage.BeginTurn?)
  {
    if call.stage.BeginTurn? {
      BeginTurnView(s, c, call, r);
    } else if call.stage.Ensure? || call.stage.Steer? {
      GoalKeepsView(s, c, call.token, Direct);
    } else if QueueStage(call.stage) {
      FinishKeepsView(s, c, call);
    }
  }

  /** Nothing else sets the running flag. */
  lemma RunningSet(s: State, step: Step, k: Option<nat>)
    requires Sound(s, k) && !s.view.running && Next(s, step).view.running
    ensures Setting(s, step)
  {
    EnsureThreadEffect(s);
    if step.Settle? && step.call in s.calls && !Blocked(s, step.call) {
      SettleSetsRunning(s.(calls := s.calls - {step.call}), step.call, s.calls[step.call], step.reply);
    }
  }

  /** Step `q` of the run clears the running flag, and is of a kind that can. */
  predicate Clears(steps: seq<Step>, q: nat)
    requires q < |steps|
  {
    && At(Initial, steps, q).view.running && !At(Initial, steps, q + 1).view.running
    && Clearing(At(Initial, steps, q), steps[q])
  }

  lemma {:induction false} RunningCleared(steps: seq<Step>, i: nat, j: nat) returns (q: nat)
    requires i <= j <= |steps|
    requires At(Initial, steps, i).view.running && !At(Initial, steps, j).view.running
    ensures i <= q < j && Clears(steps, q)
    decreases j - i
  {
    if At(Initial, steps, i + 1).view.running {
      q := RunningCleared(steps, i + 1, j);
    } else {
      q := i;
      var k := RunSound(steps[..i]);
      AtStep(Initial, steps, i);
      if !Clearing(At(Initial, steps, i), steps[i]) {
        NextView(At(Initial, steps, i), steps[i], k);
      }
    }
  }

  /** If the turn request of a drain was answered while its selection was still the current one, the
      next drain comes only after a step that cleared the running flag: the turn in view completed, a
      draft began or was given a project, or a thread was shown by a reply to the current selection. */
  lemma DrainAfterClearing(steps: seq<Step>, i: nat, m: nat, j: nat) returns (q: nat)
    requires i < m < j < |steps| && Drains(steps, i) && Drains(steps, j)
    requires var s, c := At(Initial, steps, m), At(Initial, steps, i).nextCall;
      && steps[m].Settle? && steps[m].call == c && c in s.calls
      && s.calls[c].stage.BeginTurn? && s.calls[c].token == s.selection
      && steps[m].reply.Answer? && steps[m].reply.turn.Some?
    ensures m < q < j && Clears(steps, q)
  {
    var s, c := At(Initial, steps, m), At(Initial, steps, i).nextCall;
    AtStep(Initial, steps, m);
    BeginTurnView(s.(calls := s.calls - {c}), c, s.calls[c], steps[m].reply);
    q := RunningCleared(steps, m + 1, j);
  }

  // ----- the latest selection wins -----

  /** A step writes the thread in view under the current token, or not at all. */
  lemma NextWrites(s: State, step: Step, k: Option<nat>)
    requires Sound(s, k)
    ensures var t := Next(s, step);
      && s.selection <= t.selection
      && (|| (t.view.writes == s.view.writes && t.view.viewed == s.view.viewed)
          || (t.view.writes == s.view.writes + [Write(t.selection, t.view.viewed)]))
  {
    EnsureThreadEffect(s);
    if step.Settle? && step.call in s.calls && !Blocked(s, step.call) {
      var call, rest := s.calls[step.call], s.(calls := s.calls - {step.call});
      if call.origin.Selecting? {
        OtherEffect(rest, step.call, call, step.reply);
      } else {
        ResolveView(rest, step.call, call, step.reply);
        if ForQueue(call) {
          var ok := ServingEffect(rest, step.call, call, step.reply);
        } else {
          OtherEffect(rest, step.call, call, step.reply);
        }
      }
    }
  }

  /** Write tokens never decrease, none is newer than the counter, and the last write is what is in view. */
  ghost predicate WritesOrdered(s: State) {
    var ws := s.view.writes;
    && (forall i, j :: 0 <= i < j < |ws| ==> ws[i].token <= ws[j].token)
    && (forall i :: 0 <= i < |ws| ==> ws[i].token <= s.selection)
    && s.view.viewed == if ws == [] then None else ws[|ws| - 1].viewed
  }

  lemma WritesKept(s: State, step: Step, k: Option<nat>)
    requires Sound(s, k) && WritesOrdered(s)
    ensures WritesOrdered(Next(s, step))
  {
    NextWrites(s, step, k);
  }

  lemma {:induction false} RunWrites(steps: seq<Step>)
    ensures WritesOrdered(Exec(Initial, steps))
  {
    if steps != [] {
      var front := steps[..|steps| - 1];
      RunWrites(front);
      var k := RunSound(front);
      WritesKept(Exec(Initial, front), steps[|steps| - 1], k);
    }
  }

  /** A pending selection keeps its token until it settles for good. */
  lemma SelectionKeepsToken(s: State, step: Step, c: nat, k: Option<nat>)
    requires Sound(s, k) && c < s.nextCall
    requires c in s.calls ==> s.calls[c].origin.Selecting?
    ensures var t := Next(s, step);
      && c < t.nextCall && s.selection <= t.selection
      && (c in t.calls ==> c in s.calls && t.calls[c].origin.Selecting? && t.calls[c].token == s.calls[c].token)
  {
    NextWrites(s, step, k);
    NextCalls(s, step, c, k);
  }

  lemma NextCalls(s: State, step: Step, c: nat, k: Option<nat>)
    requires Sound(s, k) && c < s.nextCall
    requires c in s.calls ==> s.calls[c].origin.Selecting?
    ensures var t := Next(s, step);
      && c < t.nextCall
      && (c in t.calls ==> c in s.calls && t.calls[c].origin.Selecting? && t.calls[c].token == s.calls[c].token)
  {
    if step.Settle? && step.call in s.calls && !Blocked(s, step.call) {
      var d, call, rest := step.call, s.calls[step.call], s.(calls := s.calls - {step.call});
      var t := Resolve(rest, d, call, step.reply);
      if d != c {
        OnlyNewCalls(rest, d, call, step.reply, c);
      }
    }
  }

  predicate NothingNewAt(s: State, t: State, c: nat) {
    c < t.nextCall && (c in t.calls ==> c in s.calls && t.calls[c] == s.calls[c])
  }

  lemma FinishTurnNothingNew(s: State, d: nat, call: Call, c: nat)
    requires c != d && c < s.nextCall
    ensures NothingNewAt(s, FinishTurn(s, d, call.token, call.origin), c)
    ensures forall origin :: NothingNewAt(s, SettingGoal(s, d, call.token, origin), c)
    ensures forall ok :: NothingNewAt(s, Finish(s, call.token, call.origin, ok), c)
  {
  }

  lemma BeginTurnNothingNew(s: State, d: nat, call: Call, r: Reply, c: nat)
    requires c != d && c < s.nextCall && call.stage.BeginTurn?
    ensures NothingNewAt(s, ResolveBeginTurn(s, d, call, r), c)
  {
    FinishTurnNothingNew(s, d, call, c);
    if r.Answer? {
      FinishTurnNothingNew(TurnRunning(s, r.turn), d, call, c);
    }
  }

  lemma SelectingNothingNew(s: State, d: nat, call: Call, r: Reply, c: nat)
    requires c != d && c < s.nextCall
    ensures NothingNewAt(s, ResolveSelecting(s, d, call, r), c)
  {
  }

  lemma DirectNothingNew(s: State, d: nat, call: Call, r: Reply, c: nat)
    requires c != d && c < s.nextCall && (call.stage.Ensure? || call.stage.Steer?)
    ensures NothingNewAt(s, Resolve(s, d, call, r), c)
  {
    FinishTurnNothingNew(s, d, call, c);
  }

  lemma OnlyNewCalls(s: State, d: nat, call: Call, r: Reply, c: nat)
    requires c != d && c < s.nextCall
    ensures NothingNewAt(s, Resolve(s, d, call, r), c)
  {
    if call.stage.BeginTurn? {
      BeginTurnNothingNew(s, d, call, r, c);
    } else if call.stage.Ensure? || call.stage.Steer? {
      DirectNothingNew(s, d, call, r, c);
    } else if QueueStage(call.stage) {
      FinishTurnNothingNew(s, d, call, c);
    } else {
      SelectingNothingNew(s, d, call, r, c);
    }
  }

  lemma {:induction false} SelectionKeepsTokenOverRun(s: State, steps: seq<Step>, c: nat,
                                                      k: Option<nat>) returns (l: Option<nat>)
    requires Sound(s, k) && c in s.calls && s.calls[c].origin.Selecting?
    ensures var t := Exec(s, steps);
      && Sound(t, l) && c < t.nextCall && s.selection <= t.selection
      && (c in t.calls ==> t.calls[c].origin.Selecting? && t.calls[c].token == s.calls[c].token)
  {
    l := k;
    if steps != [] {
      var front := steps[..|steps| - 1];
      l := SelectionKeepsTokenOverRun(s, front, c, k);
      SelectionKeepsToken(Exec(s, front), steps[|steps| - 1], c, l);
      l := NextSound(Exec(s, front), steps[|steps| - 1], l);
    }
  }

  /** An open or start of an earlier selection settles without effect on the view and the queue. */
  lemma OutdatedSettle(s: State, c: nat, r: Reply, k: Option<nat>)
    requires Sound(s, k) && c in s.calls && s.calls[c].origin.Selecting? && s.calls[c].token != s.selection
    ensures var t := Next(s, Settle(c, r)); t.view == s.view && t.queue == s.queue && t.selection == s.selection
  {
    var rest := s.(calls := s.calls - {c});
    ResolveView(rest, c, s.calls[c], r);
    OtherEffect(rest, c, s.calls[c], r);
  }

  /** Once a later selection has begun, an earlier open or start changes neither the view nor the queue
      however and whenever it settles, and whatever else happens in between. */
  lemma LatestSelectionWins(s: State, steps: seq<Step>, i: nat, k: Option<nat>)
    requires Sound(s, k) && i < |steps| && steps[i].Settle?
    requires var c := steps[i].call; c in s.calls && s.calls[c].origin.Selecting? && s.calls[c].token < s.selection
    ensures var before, after := At(s, steps, i), At(s, steps, i + 1);
      after.view == before.view && after.queue == before.queue && after.selection == before.selection
  {
    var c := steps[i].call;
    var l := SelectionKeepsTokenOverRun(s, steps[..i], c, k);
    AtStep(s, steps, i);
    var t := At(s, steps, i);
    if c in t.calls {
      OutdatedSettle(t, c, steps[i].reply, l);
    }
  }

  // ----- which thread a turn reply is filed under -----

  ghost predicate SelectionPending(s: State) {
    exists c :: c in s.calls && s.calls[c].origin.Selecting? && s.calls[c].token == s.selection
  }

  /** Answering the turn request `c` now would show its turn in another thread than it was started on. */
  predicate Misfiled(s: State, c: nat, call: Call, turn: Id)
    requires call.stage.BeginTurn?
  {
    var t := Next(s, Settle(c, Answer(call.stage.thread, Some(turn))));
    && c in s.calls && s.calls[c] == call
    && t.view.turnId == Some(turn) != s.view.turnId && t.view.viewed != Some(call.stage.thread)
  }

  predicate MisfiledAfter(s: State, steps: seq<Step>, c: nat, call: Call, turn: Id)
    requires call.stage.BeginTurn?
  {
    Misfiled(Exec(s, steps), c, call, turn)
  }

  /** The reply to a turn request puts its turn into the view exactly under an unchanged selection. */
  lemma TurnReplyEffect(s: State, c: nat, turn: Id)
    requires c in s.calls && s.calls[c].stage.BeginTurn?
    ensures var call := s.calls[c];
      Next(s, Settle(c, Answer(call.stage.thread, Some(turn)))).view
        == if call.token == s.selection then s.view.(turnId := Some(turn), running := true) else s.view
  {
    BeginTurnView(s.(calls := s.calls - {c}), c, s.calls[c], Answer(s.calls[c].stage.thread, Some(turn)));
  }

  /** Either the selection moved on, or the thread is still in view with no selection pending. */
  ghost predicate Settled(s: State, token: nat, thread: Id) {
    s.selection > token || (s.selection == token && s.view.viewed == Some(thread) && Quiet(s))
  }

  lemma NextSettled(s: State, step: Step, token: nat, thread: Id, k: Option<nat>)
    requires Sound(s, k) && Settled(s, token, thread)
    ensures Settled(Next(s, step), token, thread)
  {
    NextWrites(s, step, k);
    if s.selection == token && step.Settle? && step.call in s.calls && !Blocked(s, step.call) {
      QuietSettle(s, step.call, step.reply, k);
    } else if s.selection == token && !step.Settle? {
      assert EnsureThread(s).0 == s;
    }
  }

  lemma {:induction false} RunSettled(s: State, steps: seq<Step>, token: nat, thread: Id,
                                      k: Option<nat>) returns (l: Option<nat>)
    requires Sound(s, k) && Settled(s, token, thread)
    ensures Sound(Exec(s, steps), l) && Settled(Exec(s, steps), token, thread)
  {
    l := k;
    if steps != [] {
      var front := steps[..|steps| - 1];
      l := RunSettled(s, front, token, thread, k);
      NextSettled(Exec(s, front), steps[|steps| - 1], token, thread, l);
      l := NextSound(Exec(s, front), steps[|steps| - 1], l);
    }
  }

  lemma Exec1(s: State, step: Step)
    ensures Exec(s, [step]) == Next(s, step)
  {
    assert [] + [step] == [step];
    ExecAppend(s, [], step);
  }

  lemma Exec2(s: State, a: Step, b: Step)
    ensures Exec(s, [a, b]) == Next(Next(s, a), b)
  {
    Exec1(s, a);
    assert [a] + [b] == [a, b];
    ExecAppend(s, [a], b);
  }

  /** A pending selection may replace the thread before the turn reply arrives. */
  lemma PendingSelectionShows(s: State, d: nat, other: Id, k: Option<nat>) returns (steps: seq<Step>)
    requires Sound(s, k) && d in s.calls && s.calls[d].origin.Selecting? && s.calls[d].token == s.selection
    ensures var t := Exec(s, steps);
      && t.view.viewed == Some(other) && t.selection == s.selection
      && forall c :: c in s.calls && c != d ==> c in t.calls && t.calls[c] == s.calls[c]
  {
    var show := Settle(d, Answer(other, None));
    if s.calls[d].stage.Unsubscribe? {
      steps := [Settle(d, Fail), show];
      Exec2(s, Settle(d, Fail), show);
    } else {
      steps := [show];
      Exec1(s, show);
    }
  }

  /** A request whose own thread is not in view, under its own selection, is misfiled at once. */
  lemma MisfiledNow(s: State, c: nat) returns (turn: Id)
    requires c in s.calls && s.calls[c].stage.BeginTurn?
    requires s.calls[c].token == s.selection && s.view.viewed != Some(s.calls[c].stage.thread)
    ensures Misfiled(s, c, s.calls[c], turn)
  {
    turn := if s.view.turnId == Some("") then "t" else "";
    TurnReplyEffect(s, c, turn);
  }

  lemma NeverMisfiled(s: State, steps: seq<Step>, c: nat, call: Call, turn: Id, k: Option<nat>)
    requires Sound(s, k) && call.stage.BeginTurn? && Settled(s, call.token, call.stage.thread)
    ensures !Misfiled(Exec(s, steps), c, call, turn)
  {
    var l := RunSettled(s, steps, call.token, call.stage.thread, k);
    var t := Exec(s, steps);
    if c in t.calls && t.calls[c] == call {
      TurnReplyEffect(t, c, turn);
    }
  }

  /** However the run goes on, the turn of a request in flight is not shown in another thread than it was
      started on, exactly when the selection has moved on, or that thread is in view and no selection is
      pending. */
  lemma TurnFiledRight(s: State, c: nat, k: Option<nat>)
    requires Sound(s, k) && c in s.calls && s.calls[c].stage.BeginTurn?
    ensures var call := s.calls[c];
      (forall steps, turn :: !MisfiledAfter(s, steps, c, call, turn)) <==>
        || call.token != s.selection
        || (s.view.viewed == Some(call.stage.thread) && !SelectionPending(s))
  {
    var call := s.calls[c];
    if call.token != s.selection || (s.view.viewed == Some(call.stage.thread) && !SelectionPending(s)) {
      forall steps, turn
        ensures !MisfiledAfter(s, steps, c, call, turn)
      {
        NeverMisfiled(s, steps, c, call, turn, k);
      }
    } else if s.view.viewed != Some(call.stage.thread) {
      var turn := MisfiledNow(s, c);
      assert MisfiledAfter(s, [], c, call, turn);
    } else {
      var d :| d in s.calls && s.calls[d].origin.Selecting? && s.calls[d].token == s.selection;
      var steps := PendingSelectionShows(s, d, call.stage.thread + "b", k);
      var turn := MisfiledNow(Exec(s, steps), c);
      assert MisfiledAfter(s, steps, c, call, turn);
    }
  }

  /** A turn asked for thread "a" while "b" is being opened is shown in "b" when the open is answered first. */
  lemma TurnShownElsewhere() returns (steps: seq<Step>)
    ensures var s, call := Exec(Initial, steps), Call(1, Direct, BeginTurn("a", false));
      s.view.viewed == Some("b") && Misfiled(s, 2, call, "t")
  {
    steps := StartedReachable();
    var open, request := Call(1, Selecting, Resume("b")), Call(1, Direct, BeginTurn("a", false));
    steps := Advance(Initial, steps, Started, Open("b", false));
    var s1 := Next(Started, Open("b", false));
    assert s1 == Started.(selection := 1, calls := map[1 := open], nextCall := 2);
    steps := Advance(Initial, steps, s1, Send("hi", false, false));
    var s2 := Next(s1, Send("hi", false, false));
    var ensure := Call(1, Direct, Ensure("hi", false, false, None));
    assert s2 == s1.(calls := map[1 := open, 2 := ensure], nextCall := 3);
    steps := Advance(Initial, steps, s2, Settle(2, Answer("a", None)));
    var s3 := Next(s2, Settle(2, Answer("a", None)));
    assert s2.calls - {2} == map[1 := open];
    assert s3 == s2.(calls := map[1 := open, 2 := request]);
    steps := Advance(Initial, steps, s3, Settle(1, Answer("b", None)));
    var s4 := Next(s3, Settle(1, Answer("b", None)));
    assert s3.calls - {1} == map[2 := request];
    assert s4.calls == map[2 := request];
    TurnReplyEffect(s4, 2, "t");
  }
}
