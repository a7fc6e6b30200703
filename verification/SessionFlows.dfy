/** What comes of opening a thread and of sending a text when nothing interferes, from any state. */
module SessionFlows {
  import opened Wrappers
  import opened Keyed
  import opened Session
  import opened SessionSafety
  import opened SessionSelection

  /** The view of a thread that was just shown. */
  predicate JustShown(s: State, thread: Id, turn: Option<Id>, readOnly: bool) {
    && s.view.viewed == Some(thread) && s.view.shown == Some(thread) && s.view.turnId == turn
    && s.view.readOnly == readOnly && s.view.running == (!readOnly && turn.Some?) && s.queue.messages == []
  }

  lemma Exec3(s: State, a: Step, b: Step, c: Step)
    ensures Exec(s, [a, b, c]) == Next(Next(Next(s, a), b), c)
  {
    Exec2(s, a, b);
    assert [a, b] + [c] == [a, b, c];
    ExecAppend(s, [a, b], c);
  }

  /** Call `c` is the current selection, waiting in `stage`. */
  predicate Selects(s: State, c: nat, stage: Stage) {
    c in s.calls && s.calls[c] == Call(s.selection, Selecting, stage)
  }

  lemma OpenSelects(s: State, thread: Id, overrides: bool)
    ensures Selects(Next(s, Open(thread, overrides)), s.nextCall,
                    if overrides then Unsubscribe(thread) else Resume(thread))
  {
  }

  lemma SelectionGoesOn(s: State, c: nat, thread: Id, r: Reply)
    ensures Selects(s, c, Unsubscribe(thread)) ==> Selects(Next(s, Settle(c, r)), c, Resume(thread))
    ensures Selects(s, c, Resume(thread)) ==> Selects(Next(s, Settle(c, FailReadOnly)), c, Read(thread))
  {
  }

  lemma SelectionShows(s: State, c: nat, stage: Stage, thread: Id, turn: Option<Id>)
    requires Selects(s, c, stage) && (stage.Resume? || stage.Read?)
    ensures JustShown(Next(s, Settle(c, Answer(thread, turn))), thread, turn, stage.Read?)
  {
  }

  /** Opening a thread shows it with its running turn once the server answers. */
  lemma OpenShows(s: State, thread: Id, turn: Option<Id>)
    ensures JustShown(Exec(s, [Open(thread, false), Settle(s.nextCall, Answer(thread, turn))]), thread, turn, false)
  {
    var open, answer := Open(thread, false), Settle(s.nextCall, Answer(thread, turn));
    Exec2(s, open, answer);
    OpenSelects(s, thread, false);
    SelectionShows(Next(s, open), s.nextCall, Resume(thread), thread, turn);
  }

  /** A thread that cannot be resumed is read, and shown as read-only. */
  lemma OpenShowsReadOnly(s: State, thread: Id, turn: Option<Id>)
    ensures JustShown(Exec(s, [Open(thread, false), Settle(s.nextCall, FailReadOnly),
                               Settle(s.nextCall, Answer(thread, turn))]), thread, turn, true)
  {
    var open, fail := Open(thread, false), Settle(s.nextCall, FailReadOnly);
    var answer := Settle(s.nextCall, Answer(thread, turn));
    Exec3(s, open, fail, answer);
    OpenSelects(s, thread, false);
    SelectionGoesOn(Next(s, open), s.nextCall, thread, FailReadOnly);
    SelectionShows(Next(Next(s, open), fail), s.nextCall, Read(thread), thread, turn);
  }

  /** With overrides the thread is first unsubscribed, however that ends. */
  lemma OpenWithOverrides(s: State, thread: Id, r: Reply, turn: Option<Id>)
    ensures Selects(Next(s, Open(thread, true)), s.nextCall, Unsubscribe(thread))
    ensures JustShown(Exec(s, [Open(thread, true), Settle(s.nextCall, r), Settle(s.nextCall, Answer(thread, turn))]),
                      thread, turn, false)
  {
    var open, gone, answer := Open(thread, true), Settle(s.nextCall, r), Settle(s.nextCall, Answer(thread, turn));
    Exec3(s, open, gone, answer);
    OpenSelects(s, thread, true);
    SelectionGoesOn(Next(s, open), s.nextCall, thread, r);
    SelectionShows(Next(Next(s, open), gone), s.nextCall, Resume(thread), thread, turn);
  }

  /** A thread is in view, and input may go to it. */
  predicate Writable(s: State) { s.view.viewed.Some? && !s.view.readOnly }

  /** A send that has its thread only waits for its turn. */
  lemma SendWaits(s: State, text: string, asGoal: bool, queueing: bool, k: Option<nat>)
    requires Sound(s, k) && Writable(s)
    ensures Next(s, Send(text, asGoal, queueing))
         == Issue(s, Call(s.selection, Direct, Ensure(text, asGoal, queueing, None)))
  {
  }

  lemma EnsureSettles(s: State, c: nat, r: Reply)
    requires c in s.calls && s.calls[c].stage.Ensure? && s.calls[c].stage.waitsFor.None?
    ensures Next(s, Settle(c, r)) == ResolveEnsure(s.(calls := s.calls - {c}), c, s.calls[c], r)
  {
  }

  /** A send that finds its thread goes on from there. */
  lemma SendFinds(s: State, text: string, asGoal: bool, queueing: bool, k: Option<nat>) returns (found: State)
    requires Sound(s, k) && Writable(s)
    ensures var call := Call(s.selection, Direct, Ensure(text, asGoal, queueing, None));
      && found.view == s.view && found.queue == s.queue && found.selection == s.selection
      && Exec(s, [Send(text, asGoal, queueing), Settle(s.nextCall, Answer("", None))])
         == ResolveEnsure(found, s.nextCall, call, Answer("", None))
  {
    var send, answer := Send(text, asGoal, queueing), Settle(s.nextCall, Answer("", None));
    Exec2(s, send, answer);
    SendWaits(s, text, asGoal, queueing, k);
    var waiting := Next(s, send);
    EnsureSettles(waiting, s.nextCall, Answer("", None));
    found := waiting.(calls := waiting.calls - {s.nextCall});
  }

  /** A text sent to be queued while a turn runs waits at the end of the queue. */
  lemma SendQueues(s: State, text: string, asGoal: bool, k: Option<nat>)
    requires Sound(s, k) && Writable(s) && s.view.turnId.Some?
    ensures Exec(s, [Send(text, asGoal, true), Settle(s.nextCall, Answer("", None))]).queue.messages
         == s.queue.messages + [Message(s.queue.nextMessage, text, asGoal)]
  {
    var found := SendFinds(s, text, asGoal, true, k);
  }

  /** A text sent otherwise while a turn runs steers that turn. */
  lemma SendSteers(s: State, text: string, asGoal: bool, k: Option<nat>)
    requires Sound(s, k) && Writable(s) && s.view.turnId.Some?
    ensures var t := Exec(s, [Send(text, asGoal, false), Settle(s.nextCall, Answer("", None))]);
      && s.nextCall in t.calls && t.calls[s.nextCall] == Call(s.selection, Direct, Steer(asGoal, false))
      && t.queue == s.queue
  {
    var found := SendFinds(s, text, asGoal, false, k);
  }

  /** Call `c` asks for a turn of a direct send, and nothing else changed since `s`. */
  predicate Asks(s: State, c: nat, asGoal: bool, t: State) {
    && s.view.viewed.Some? && t.view == s.view && t.queue == s.queue && t.selection == s.selection
    && c in t.calls && t.calls[c] == Call(s.selection, Direct, BeginTurn(s.view.viewed.value, asGoal))
  }

  lemma FoundAsks(s: State, c: nat, call: Call)
    requires s.view.viewed.Some? && s.view.turnId.None? && call.stage.Ensure? && call.token == s.selection
    ensures Asks(s, c, call.stage.asGoal, ResolveEnsure(s, c, call, Answer("", None)))
  {
  }

  lemma SendAsks(s: State, text: string, asGoal: bool, queueing: bool, k: Option<nat>)
    requires Sound(s, k) && Writable(s) && s.view.turnId.None?
    ensures Asks(s, s.nextCall, asGoal, Exec(s, [Send(text, asGoal, queueing), Settle(s.nextCall, Answer("", None))]))
  {
    var found := SendFinds(s, text, asGoal, queueing, k);
    FoundAsks(found, s.nextCall, Call(s.selection, Direct, Ensure(text, asGoal, queueing, None)));
  }

  /** The turn runs, and a goal is set next. */
  predicate Runs(s: State, c: nat, turn: Id, asGoal: bool, t: State) {
    && t.view == s.view.(turnId := Some(turn), running := true) && t.queue == s.queue
    && (c in t.calls <==> asGoal) && (asGoal ==> t.calls[c].stage.SetGoal?)
  }

  lemma TurnRuns(s: State, c: nat, asGoal: bool, t: State, turn: Id)
    requires Asks(s, c, asGoal, t) && c < t.nextCall
    ensures Runs(s, c, turn, asGoal, Next(t, Settle(c, Answer("", Some(turn)))))
  {
    var rest := t.(calls := t.calls - {c});
    SettingGoalEffect(TurnRunning(rest, Some(turn)), c, s.selection, Direct);
  }

  /** A text sent while no turn runs starts one in the thread in view, which then runs; a goal is set next. */
  lemma SendStartsTurn(s: State, text: string, asGoal: bool, queueing: bool, turn: Id, k: Option<nat>)
    requires Sound(s, k) && Writable(s) && s.view.turnId.None?
    ensures var send, found := Send(text, asGoal, queueing), Settle(s.nextCall, Answer("", None));
      Runs(s, s.nextCall, turn, asGoal, Exec(s, [send, found, Settle(s.nextCall, Answer("", Some(turn)))]))
  {
    var send, found := Send(text, asGoal, queueing), Settle(s.nextCall, Answer("", None));
    SendAsks(s, text, asGoal, queueing, k);
    Exec2(s, send, found);
    Exec3(s, send, found, Settle(s.nextCall, Answer("", Some(turn))));
    var l := NextSound(s, send, k);
    l := NextSound(Next(s, send), found, l);
    TurnRuns(s, s.nextCall, asGoal, Next(Next(s, send), found), turn);
  }

  // ----- steering -----

  /** Call `c` steers the turn in view for a direct send. */
  predicate Steers(s: State, c: nat, asGoal: bool, retried: bool) {
    c in s.calls && s.calls[c].origin == Direct && s.calls[c].stage == Steer(asGoal, retried)
  }

  lemma SteerRetried(s: State, c: nat, asGoal: bool, found: Id)
    requires Steers(s, c, asGoal, false)
    ensures var t := Next(s, Settle(c, FailMismatch(found)));
      Steers(t, c, asGoal, true) && t.view == s.view.(turnId := Some(found)) && t.queue == s.queue
  {
  }

  lemma SteerEnded(s: State, c: nat, asGoal: bool, found: Id)
    requires Steers(s, c, asGoal, true)
    ensures var t := Next(s, Settle(c, FailMismatch(found))); c !in t.calls && t.view == s.view && t.queue == s.queue
  {
  }

  /** A steer that names another turn than the one that runs is tried once more, under the turn that the
      server named, and then given up. */
  lemma SteerTwice(s: State, c: nat, asGoal: bool, first: Id, second: Id)
    requires Steers(s, c, asGoal, false)
    ensures var t := Exec(s, [Settle(c, FailMismatch(first)), Settle(c, FailMismatch(second))]);
      c !in t.calls && t.view == s.view.(turnId := Some(first)) && t.queue == s.queue
  {
    var one, two := Settle(c, FailMismatch(first)), Settle(c, FailMismatch(second));
    Exec2(s, one, two);
    SteerRetried(s, c, asGoal, first);
    SteerEnded(Next(s, one), c, asGoal, second);
  }

  lemma NoTurnAsks(s: State, c: nat, asGoal: bool, retried: bool)
    requires Steers(s, c, asGoal, retried) && s.view.viewed.Some?
    ensures Asks(s.(view := s.view.(turnId := None)), c, asGoal, Next(s, Settle(c, FailNoTurn)))
    ensures Next(s, Settle(c, FailNoTurn)).nextCall == s.nextCall
  {
  }

  /** A steer that finds no running turn starts one in the thread in view, which then runs. */
  lemma SteerFallsBack(s: State, c: nat, asGoal: bool, retried: bool, turn: Id)
    requires Steers(s, c, asGoal, retried) && s.view.viewed.Some? && c < s.nextCall
    ensures Runs(s, c, turn, asGoal, Exec(s, [Settle(c, FailNoTurn), Settle(c, Answer("", Some(turn)))]))
  {
    var none, answer := Settle(c, FailNoTurn), Settle(c, Answer("", Some(turn)));
    Exec2(s, none, answer);
    NoTurnAsks(s, c, asGoal, retried);
    TurnRuns(s.(view := s.view.(turnId := None)), c, asGoal, Next(s, none), turn);
  }
}
