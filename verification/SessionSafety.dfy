/** Safety of the session protocol over every run: how queued messages are handed over, when a second
    drain can happen, which selection decides the view, and which turn the view holds. */
module SessionSafety {
  import opened Wrappers
  import opened Keyed
  import opened Session

  lemma ExecAppend(s: State, steps: seq<Step>, step: Step)
    ensures Exec(s, steps + [step]) == Next(Exec(s, steps), step)
  {
    assert (steps + [step])[..|steps|] == steps;
  }

  // ----- what one settling call changes -----

  lemma EnsureThreadEffect(s: State)
    ensures var t := EnsureThread(s).0;
      && t.queue == s.queue && t.view == s.view && t.selection == s.selection
      && forall c :: c in s.calls && c < s.nextCall ==> c in t.calls && t.calls[c] == s.calls[c]
  {
  }

  /** The calls in flight other than `c` are still there. */
  ghost predicate OthersKept(s: State, c: nat, t: State) {
    forall d :: d in s.calls && d != c && d < s.nextCall ==> d in t.calls && t.calls[d] == s.calls[d]
  }

  lemma SettingGoalEffect(s: State, c: nat, token: nat, origin: Origin)
    requires c < s.nextCall
    ensures var t := SettingGoal(s, c, token, origin);
      && t.queue == s.queue && t.view == s.view && t.selection == s.selection
      && c in t.calls && t.calls[c] == Call(token, origin, SetGoal)
      && OthersKept(s, c, t)
  {
    EnsureThreadEffect(Await(s, c, Call(token, origin, SetGoal)));
  }

  /** The queue is untouched, cleared by a live selection, or longer by one new message. */
  predicate QueueEffect(s: State, call: Call, t: State) {
    || t.queue == s.queue
    || (call.origin.Selecting? && call.token == s.selection && t.queue == s.queue.(messages := []))
    || (call.stage.Ensure? && t.queue == Enqueue(s.queue, call.stage.text, call.stage.asGoal))
  }

  lemma SelectingEffect(s: State, c: nat, call: Call, r: Reply)
    requires call.origin.Selecting? && Fits(call) && c < s.nextCall
    ensures var t := ResolveSelecting(s, c, call, r);
      t.selection == s.selection && QueueEffect(s, call, t) && OthersKept(s, c, t)
  {
  }

  lemma DirectEffect(s: State, c: nat, call: Call, r: Reply)
    requires call.origin.Direct? && c < s.nextCall && (call.stage.Ensure? || call.stage.Steer? || call.stage.BeginTurn?)
    ensures var t := Resolve(s, c, call, r);
      t.selection == s.selection && QueueEffect(s, call, t) && OthersKept(s, c, t)
  {
    FinishOther(s, c, call);
    if call.stage.Steer? {
      SettingGoalEffect(s, c, call.token, Direct);
    } else if call.stage.BeginTurn? && r.Answer? {
      SettingGoalEffect(TurnRunning(s, r.turn), c, call.token, call.origin);
    }
  }

  /** A call that does not serve the queue may clear it or add one new message, no more. */
  lemma OtherEffect(s: State, c: nat, call: Call, r: Reply)
    requires !ForQueue(call) && Fits(call) && c < s.nextCall
    ensures var t := Resolve(s, c, call, r);
      t.selection == s.selection && QueueEffect(s, call, t) && OthersKept(s, c, t)
  {
    FinishOther(s, c, call);
    if call.origin.Selecting? {
      SelectingEffect(s, c, call, r);
    } else if call.stage.Ensure? || call.stage.Steer? || call.stage.BeginTurn? {
      DirectEffect(s, c, call, r);
    }
  }

  /** From `s` to `t` the serving call `c` either stays in flight with the queue untouched, or ends. */
  ghost predicate Served(s: State, c: nat, call: Call, t: State, ok: bool)
    requires ForQueue(call)
  {
    && t.selection == s.selection
    && (if c in t.calls
        then && t.queue == s.queue && ForQueue(t.calls[c]) && t.calls[c].token == call.token
             && t.calls[c].origin.msg == call.origin.msg && t.calls[c].origin.ByHand? == call.origin.ByHand?
        else t.queue == Finish(s, call.token, call.origin, ok).queue)
    && OthersKept(s, c, t)
  }

  lemma FinishTurnEffect(s: State, c: nat, call: Call)
    requires ForQueue(call) && c !in s.calls && c < s.nextCall
    ensures Served(s, c, call, FinishTurn(s, c, call.token, call.origin), true)
  {
    if call.origin.ByHand? {
      SettingGoalEffect(s, c, call.token, call.origin.(goalAfter := false));
    }
  }

  lemma BeginTurnEffect(s: State, c: nat, call: Call, r: Reply)
    requires ForQueue(call) && call.stage.BeginTurn? && c !in s.calls && c < s.nextCall
    ensures Served(s, c, call, ResolveBeginTurn(s, c, call, r), r.Answer? && r.turn.Some?)
  {
    FinishTurnEffect(s, c, call);
    if r.Answer? {
      var s1 := TurnRunning(s, r.turn);
      FinishTurnEffect(s1, c, call);
      SettingGoalEffect(s1, c, call.token, call.origin);
    }
  }

  /** The call that serves the queue leaves it alone until it ends. */
  lemma ServingEffect(s: State, c: nat, call: Call, r: Reply) returns (ok: bool)
    requires ForQueue(call) && QueueStage(call.stage) && c !in s.calls && c < s.nextCall
    ensures Served(s, c, call, Resolve(s, c, call, r), ok)
  {
    ok := true;
    if call.stage.BeginTurn? {
      ok := r.Answer? && r.turn.Some?;
      BeginTurnEffect(s, c, call, r);
    } else {
      FinishTurnEffect(s, c, call);
      if call.stage.SteerQueued? || call.stage.Fork? {
        ok := r.Answer?;
      }
    }
  }

  // ----- at most once -----

  function HandedIds(hs: seq<Handover>): (r: seq<nat>)
    ensures |r| == |hs|
    ensures forall i :: 0 <= i < |hs| ==> r[i] == hs[i].id
  {
    seq(|hs|, i requires 0 <= i < |hs| => hs[i].id)
  }

  /** Unless a message leaked, no message was handed over twice, and none that waits was handed over. */
  ghost predicate Once(q: Queue) {
    && (forall m :: m in q.messages ==> m.id < q.nextMessage)
    && (forall h :: h in q.handed ==> h.id < q.nextMessage)
    && (!q.leaked ==> Distinct(HandedIds(q.handed)) && forall m :: m in q.messages ==> m.id !in HandedIds(q.handed))
  }

  /** The message of a manual send in flight was not handed over before. */
  ghost predicate NotYet(q: Queue, id: nat) {
    id < q.nextMessage && (!q.leaked ==> id !in HandedIds(q.handed))
  }

  ghost predicate OnceInv(s: State, k: Option<nat>) {
    && Once(s.queue)
    && (k.Some? && k.value in s.calls && s.calls[k.value].origin.ByHand? ==>
        NotYet(s.queue, s.calls[k.value].origin.msg.id))
  }

  lemma HandOverByHandOnce(q: Queue, id: nat, live: bool)
    requires Once(q) && NotYet(q, id)
    ensures Once(HandOverByHand(q, id, live))
  {
    var t := HandOverByHand(q, id, live);
    assert HandedIds(t.handed) == HandedIds(q.handed) + [id];
    assert forall m :: m in t.messages ==> m in q.messages;
    if !t.leaked {
      forall m | m in t.messages
        ensures m.id != id
      {
        if !live {
          var i :| 0 <= i < |q.messages| && q.messages[i] == m;
          assert Ids(q.messages)[i] == m.id;
        }
      }
    }
  }

  lemma HandOverFirstOnce(q: Queue)
    requires Once(q) && q.messages != []
    ensures Once(HandOverFirst(q))
  {
    var m := q.messages[0];
    var t := HandOverFirst(q);
    assert m in q.messages;
    assert HandedIds(t.handed) == HandedIds(q.handed) + [m.id];
  }

  lemma EnqueueOnce(q: Queue, text: string, asGoal: bool)
    requires Once(q)
    ensures Once(Enqueue(q, text, asGoal))
  {
    var t := Enqueue(q, text, asGoal);
    forall m | m in t.messages
      ensures m.id < t.nextMessage && (!t.leaked ==> m.id !in HandedIds(t.handed))
    {
      assert q.nextMessage !in HandedIds(q.handed) by {
        assert forall i :: 0 <= i < |q.handed| ==> q.handed[i] in q.handed;
      }
    }
  }

  /** Taking messages out, reordering and editing brings no new identifier in. */
  lemma SubsetOnce(q: Queue, messages: seq<Message>)
    requires Once(q)
    requires forall m :: m in messages ==> m.id in Ids(q.messages)
    ensures Once(q.(messages := messages))
  {
    forall m | m in messages
      ensures m.id < q.nextMessage && (!q.leaked ==> m.id !in HandedIds(q.handed))
    {
      var i :| 0 <= i < |q.messages| && Ids(q.messages)[i] == m.id;
      assert q.messages[i] in q.messages;
    }
  }

  lemma QueuedIds(queue: seq<Message>)
    ensures forall m :: m in queue ==> m.id in Ids(queue)
  {
    forall m | m in queue
      ensures m.id in Ids(queue)
    {
      var i :| 0 <= i < |queue| && queue[i] == m;
      assert Ids(queue)[i] == m.id;
    }
  }

  lemma OtherOnce(s: State, c: nat, r: Reply, k: Option<nat>)
    requires Sound(s, k) && OnceInv(s, k) && c in s.calls && !ForQueue(s.calls[c])
    ensures OnceInv(Resolve(s.(calls := s.calls - {c}), c, s.calls[c], r), k)
  {
    var call := s.calls[c];
    var rest := s.(calls := s.calls - {c});
    OtherEffect(rest, c, call, r);
    if call.stage.Ensure? {
      EnqueueOnce(s.queue, call.stage.text, call.stage.asGoal);
    }
    SubsetOnce(s.queue, []);
  }

  lemma ServingOnce(s: State, c: nat, r: Reply, k: Option<nat>)
    requires Sound(s, k) && OnceInv(s, k) && c in s.calls && ForQueue(s.calls[c])
    ensures var t := Resolve(s.(calls := s.calls - {c}), c, s.calls[c], r);
      OnceInv(t, if c in t.calls then Some(c) else None)
  {
    var call := s.calls[c];
    var rest := s.(calls := s.calls - {c});
    var ok := ServingEffect(rest, c, call, r);
    if call.origin.ByHand? {
      HandOverByHandOnce(s.queue, call.origin.msg.id, call.token == s.selection);
    }
  }

  lemma SendQueuedOnce(s: State, id: nat, side: bool, k: Option<nat>, kNext: Option<nat>)
    requires Sound(s, k) && OnceInv(s, k)
    requires var t := Next(s, SendQueued(id, side)); if t == s then kNext == k else kNext == Some(s.nextCall)
    ensures OnceInv(Next(s, SendQueued(id, side)), kNext)
  {
    var o := FindMessage(s.queue.messages, id);
  }

  lemma SettleOnce(s: State, c: nat, r: Reply, k: Option<nat>) returns (kNext: Option<nat>)
    requires Sound(s, k) && OnceInv(s, k)
    ensures Sound(Next(s, Settle(c, r)), kNext) && OnceInv(Next(s, Settle(c, r)), kNext)
  {
    kNext := k;
    if c in s.calls && !Blocked(s, c) {
      kNext := SettleSound(s, c, r, k);
      if ForQueue(s.calls[c]) {
        ServingOnce(s, c, r, k);
      } else {
        OtherOnce(s, c, r, k);
      }
    }
  }

  predicate QueueEdit(step: Step) {
    step.RemoveQueued? || step.EditQueued? || step.OrderQueued? || step.Draft? || step.ChooseProject?
  }

  lemma QueueEditOnce(s: State, step: Step)
    requires Once(s.queue) && QueueEdit(step)
    ensures Once(Next(s, step).queue)
    ensures Next(s, step).queue == s.queue.(messages := Next(s, step).queue.messages)
  {
    QueuedIds(s.queue.messages);
    match step
    case Draft => SubsetOnce(s.queue, []);
    case ChooseProject => SubsetOnce(s.queue, []);
    case RemoveQueued(id) => SubsetOnce(s.queue, Without(s.queue.messages, id));
    case EditQueued(id, text) =>
      QueuedIds(Edit(s.queue.messages, id, text));
      SubsetOnce(s.queue, Edit(s.queue.messages, id, text));
    case OrderQueued(ids) => SubsetOnce(s.queue, Reorder(s.queue.messages, ids));
  }

  lemma DrainOnce(s: State, k: Option<nat>) returns (kNext: Option<nat>)
    requires Sound(s, k) && OnceInv(s, k)
    ensures Sound(Next(s, Drain), kNext) && OnceInv(Next(s, Drain), kNext)
  {
    kNext := DrainSound(s, k);
    if CanDrain(s) {
      HandOverFirstOnce(s.queue);
    }
  }

  lemma PlainOnce(s: State, step: Step, k: Option<nat>) returns (kNext: Option<nat>)
    requires Sound(s, k) && OnceInv(s, k) && !step.Settle? && !step.Drain? && !step.SendQueued?
    ensures Sound(Next(s, step), kNext) && OnceInv(Next(s, step), kNext)
  {
    kNext := NextSound(s, step, k);
    EnsureThreadEffect(s);
    if QueueEdit(step) {
      QueueEditOnce(s, step);
    }
  }

  lemma NextOnce(s: State, step: Step, k: Option<nat>) returns (kNext: Option<nat>)
    requires Sound(s, k) && OnceInv(s, k)
    ensures Sound(Next(s, step), kNext) && OnceInv(Next(s, step), kNext)
  {
    if step.Settle? {
      kNext := SettleOnce(s, step.call, step.reply, k);
    } else if step.Drain? {
      kNext := DrainOnce(s, k);
    } else if step.SendQueued? {
      kNext := SendQueuedSound(s, k, step.id, step.side);
      SendQueuedOnce(s, step.id, step.side, k, kNext);
    } else {
      kNext := PlainOnce(s, step, k);
    }
  }

  lemma {:induction false} RunOnce(steps: seq<Step>) returns (k: Option<nat>)
    ensures Sound(Exec(Initial, steps), k) && OnceInv(Exec(Initial, steps), k)
  {
    if steps == [] {
      k := None;
    } else {
      k := RunOnce(steps[..|steps| - 1]);
      k := NextOnce(Exec(Initial, steps[..|steps| - 1]), steps[|steps| - 1], k);
    }
  }

  /** Each message was handed over at most once, by the drain or by hand, and none that waits was. */
  predicate SentOnce(q: Queue) {
    && (forall i, j :: 0 <= i < j < |q.handed| ==> q.handed[i].id != q.handed[j].id)
    && (forall m, h :: m in q.messages && h in q.handed ==> m.id != h.id)
  }

  lemma OnceMeans(q: Queue)
    requires Once(q) && !q.leaked
    ensures SentOnce(q)
  {
    forall i, j | 0 <= i < j < |q.handed|
      ensures q.handed[i].id != q.handed[j].id
    {
      assert HandedIds(q.handed)[i] != HandedIds(q.handed)[j];
    }
    forall m, h | m in q.messages && h in q.handed
      ensures m.id != h.id
    {
      var i :| 0 <= i < |q.handed| && q.handed[i] == h;
      assert HandedIds(q.handed)[i] == h.id;
    }
  }

  /** A message leaks exactly when a manual send goes through after the selection moved on, while its
      message still waits. */
  lemma LeaksExactly(s: State, step: Step, k: Option<nat>)
    requires Sound(s, k) && !s.queue.leaked
    ensures var t := Next(s, step);
      t.queue.leaked <==>
        && step.Settle? && step.call in s.calls && s.calls[step.call].origin.ByHand?
        && |t.queue.handed| > |s.queue.handed|
        && s.calls[step.call].token != s.selection
        && s.calls[step.call].origin.msg.id in Ids(s.queue.messages)
  {
    EnsureThreadEffect(s);
    if step.Settle? && step.call in s.calls && !Blocked(s, step.call) {
      var c, call, rest := step.call, s.calls[step.call], s.(calls := s.calls - {step.call});
      if ForQueue(call) {
        var ok := ServingEffect(rest, c, call, step.reply);
      } else {
        OtherEffect(rest, c, call, step.reply);
      }
    }
  }

  /** A run from `start` to `s`, one step longer. */
  lemma Advance(start: State, steps: seq<Step>, s: State, step: Step) returns (more: seq<Step>)
    requires Exec(start, steps) == s
    ensures Exec(start, more) == Next(s, step) && more == steps + [step]
  {
    more := steps + [step];
    ExecAppend(start, steps, step);
  }

  /** A thread just started. */
  const Started := State(0, View(Some("a"), Some("a"), None, false, false, [Write(0, Some("a"))]),
                         Queue([], 0, None, [], false), false, false, None, map[], 1)

  lemma StartedReachable() returns (steps: seq<Step>)
    ensures Exec(Initial, steps) == Started
  {
    steps := Advance(Initial, [], Initial, GoalOrReview);
    var s := Next(Initial, GoalOrReview);
    assert s.calls == map[0 := Call(0, Selecting, Start)];
    assert s.calls - {0} == map[];
    steps := Advance(Initial, steps, s, Settle(0, Answer("a", None)));
  }

  /** A thread with one running turn and one message queued behind it. */
  const Waiting := State(0, View(Some("a"), Some("a"), Some("t"), true, false, [Write(0, Some("a"))]),
                         Queue([Message(0, "hi", false)], 1, None, [], false), false, false, None, map[], 2)

  lemma WaitingReachable() returns (steps: seq<Step>)
    ensures Exec(Initial, steps) == Waiting
  {
    steps := StartedReachable();
    steps := Advance(Initial, steps, Started, TurnStartedNote("a", "t"));
    var s := Next(Started, TurnStartedNote("a", "t"));
    steps := Advance(Initial, steps, s, Send("hi", false, true));
    var t := Next(s, Send("hi", false, true));
    assert t == s.(calls := map[1 := Call(0, Direct, Ensure("hi", false, true, None))], nextCall := 2);
    assert t.calls - {1} == map[];
    steps := Advance(Initial, steps, t, Settle(1, Answer("a", None)));
    assert [] + [Message(0, "hi", false)] == [Message(0, "hi", false)];
  }

  /** The same thread after a manual send went through while another thread was being opened. */
  const Leaked := State(1, Waiting.view, Queue(Waiting.queue.messages, 1, None, [Handover(0, false)], true),
                        false, false, None, map[3 := Call(1, Selecting, Resume("b"))], 4)

  lemma LeakedReachable() returns (steps: seq<Step>)
    ensures Exec(Initial, steps) == Leaked
  {
    steps := WaitingReachable();
    var m := Message(0, "hi", false);
    steps := Advance(Initial, steps, Waiting, SendQueued(0, false));
    var s1 := Next(Waiting, SendQueued(0, false));
    var byHand := Call(0, ByHand(m, true), SteerQueued);
    assert s1 == Waiting.(acting := true, nextCall := 3, calls := map[2 := byHand]) by {
      assert FindMessage(Waiting.queue.messages, 0) == Some(m);
    }
    steps := Advance(Initial, steps, s1, Open("b", false));
    var s2 := Next(s1, Open("b", false));
    assert s2.calls == map[2 := byHand, 3 := Call(1, Selecting, Resume("b"))];
    steps := Advance(Initial, steps, s2, Settle(2, Answer("a", None)));
    assert s2.calls - {2} == Leaked.calls;
    assert Ids([m])[0] == 0;
  }

  /** Opening another thread while a manual send is in flight has the message sent twice, by hand and
      again by the drain, when the open is slow or fails. */
  lemma LeakedMessageSentTwice() returns (steps: seq<Step>)
    ensures Exec(Initial, steps).queue.handed == [Handover(0, false), Handover(0, true)]
  {
    steps := LeakedReachable();
    steps := Advance(Initial, steps, Leaked, TurnCompletedNote("a"));
    var s := Next(Leaked, TurnCompletedNote("a"));
    assert CanDrain(s);
    steps := Advance(Initial, steps, s, Drain);
  }

  // ----- first in, first out -----

  function Range(lo: nat, hi: nat): (r: seq<nat>)
    ensures |r| == if lo <= hi then hi - lo else 0
    ensures forall i :: 0 <= i < |r| ==> r[i] == lo + i
  {
    if lo >= hi then [] else seq(hi - lo, i requires 0 <= i < hi - lo => lo + i)
  }

  /** The steps that leave the selection alone and treat the queue only by adding and draining. */
  predicate Plain(step: Step) {
    !(step.Open? || step.Draft? || step.ChooseProject? || step.SendQueued? || step.RemoveQueued? || step.OrderQueued?)
  }

  /** A thread is in view and no pending selection can replace it. */
  ghost predicate Quiet(s: State) {
    && s.view.viewed.Some?
    && forall c :: c in s.calls && s.calls[c].origin.Selecting? ==> s.calls[c].token != s.selection
  }

  ghost predicate Numbered(q: Queue) {
    Distinct(Ids(q.messages)) && forall i :: 0 <= i < |q.messages| ==> Ids(q.messages)[i] < q.nextMessage
  }

  lemma {:induction false} WithoutAbsent(queue: seq<Message>, id: nat)
    requires id !in Ids(queue)
    ensures Without(queue, id) == queue
  {
    if queue != [] {
      assert Ids(queue)[0] == queue[0].id;
      assert forall i :: 0 <= i < |queue| - 1 ==> Ids(queue[1..])[i] == Ids(queue)[i + 1];
      WithoutAbsent(queue[1..], id);
    }
  }

  lemma WithoutFirst(queue: seq<Message>)
    requires queue != [] && Distinct(Ids(queue))
    ensures Without(queue, queue[0].id) == queue[1..]
  {
    assert forall i :: 0 <= i < |queue| - 1 ==> Ids(queue[1..])[i] == Ids(queue)[i + 1];
    assert queue[0].id == Ids(queue)[0];
    WithoutAbsent(queue[1..], queue[0].id);
  }

  /** `t` shows the same thread as `s`, and no selection call of `t` is live. */
  ghost predicate StaysQuiet(s: State, t: State) {
    && t.view.viewed == s.view.viewed && t.selection == s.selection && (t.acting ==> s.acting)
    && forall d :: d in t.calls && t.calls[d].origin.Selecting? ==> t.calls[d].token != t.selection
  }

  lemma EnsureQuiet(s: State)
    requires StaysQuiet(s, s) && s.view.viewed.Some?
    ensures EnsureThread(s).0 == s
  {
  }

  lemma AwaitQuiet(s: State, c: nat, call: Call)
    requires StaysQuiet(s, s)
    requires call.origin.Selecting? ==> call.token != s.selection
    ensures StaysQuiet(s, Await(s, c, call))
  {
  }

  lemma FinishTurnQuiet(s: State, c: nat, call: Call)
    requires StaysQuiet(s, s) && s.view.viewed.Some?
    ensures StaysQuiet(s, FinishTurn(s, c, call.token, call.origin))
    ensures forall ok :: StaysQuiet(s, Finish(s, call.token, call.origin, ok))
  {
    if call.origin.ByHand? {
      var next := Call(call.token, call.origin.(goalAfter := false), SetGoal);
      AwaitQuiet(s, c, next);
      EnsureQuiet(Await(s, c, next));
    }
  }

  lemma BeginTurnQuiet(s: State, c: nat, call: Call, r: Reply)
    requires StaysQuiet(s, s) && s.view.viewed.Some? && !call.origin.Selecting?
    requires call.stage.BeginTurn?
    ensures StaysQuiet(s, ResolveBeginTurn(s, c, call, r))
  {
    FinishTurnQuiet(s, c, call);
    if r.Answer? {
      var s1 := TurnRunning(s, r.turn);
      FinishTurnQuiet(s1, c, call);
      var next := Call(call.token, call.origin, SetGoal);
      AwaitQuiet(s1, c, next);
      EnsureQuiet(Await(s1, c, next));
    }
  }

  lemma DirectQuiet(s: State, c: nat, call: Call, r: Reply)
    requires StaysQuiet(s, s) && s.view.viewed.Some?
    requires call.stage.Ensure? || call.stage.Steer?
    ensures StaysQuiet(s, Resolve(s, c, call, r))
  {
    var next := Call(call.token, Direct, SetGoal);
    AwaitQuiet(s, c, next);
    EnsureQuiet(Await(s, c, next));
  }

  /** Without a live selection call no settling call changes the thread in view, and no new selection
      call appears. */
  lemma QuietSettle(s: State, c: nat, r: Reply, k: Option<nat>)
    requires Sound(s, k) && Quiet(s) && c in s.calls
    ensures StaysQuiet(s, Resolve(s.(calls := s.calls - {c}), c, s.calls[c], r))
  {
    var call := s.calls[c];
    var rest := s.(calls := s.calls - {c});
    assert StaysQuiet(rest, rest);
    if call.stage.BeginTurn? {
      BeginTurnQuiet(rest, c, call, r);
    } else if call.stage.Ensure? || call.stage.Steer? {
      DirectQuiet(rest, c, call, r);
    } else if call.origin.Selecting? {
      AwaitQuiet(rest, c, call.(stage := Resume("")));
    } else {
      FinishTurnQuiet(rest, c, call);
    }
  }

  /** One step of the queue: unchanged, one message added at the end, or the first one handed over. */
  predicate FifoStep(q: Queue, r: Queue) {
    || (Ids(r.messages) == Ids(q.messages) && r.handed == q.handed && r.nextMessage == q.nextMessage)
    || (Ids(r.messages) == Ids(q.messages) + [q.nextMessage] && r.handed == q.handed
        && r.nextMessage == q.nextMessage + 1)
    || (q.messages != [] && Ids(r.messages) == Ids(q.messages)[1..] && r.nextMessage == q.nextMessage
        && r.handed == q.handed + [Handover(q.messages[0].id, true)])
  }

  lemma SettleFifo(s: State, c: nat, r: Reply, k: Option<nat>)
    requires Sound(s, k) && Quiet(s) && !s.acting && c in s.calls
    ensures FifoStep(s.queue, Resolve(s.(calls := s.calls - {c}), c, s.calls[c], r).queue)
  {
    var call := s.calls[c];
    var rest := s.(calls := s.calls - {c});
    if ForQueue(call) {
      var ok := ServingEffect(rest, c, call, r);
    } else {
      OtherEffect(rest, c, call, r);
      if call.stage.Ensure? {
        var q := Enqueue(s.queue, call.stage.text, call.stage.asGoal);
        assert Ids(q.messages) == Ids(s.queue.messages) + [s.queue.nextMessage];
      }
    }
  }

  lemma NextFifo(s: State, step: Step, k: Option<nat>)
    requires Sound(s, k) && Quiet(s) && !s.acting && Plain(step) && Numbered(s.queue)
    ensures Quiet(Next(s, step)) && !Next(s, step).acting && FifoStep(s.queue, Next(s, step).queue)
  {
    if step.Settle? {
      if step.call in s.calls && !Blocked(s, step.call) {
        QuietSettle(s, step.call, step.reply, k);
        SettleFifo(s, step.call, step.reply, k);
      }
    } else if step.Drain? {
      if CanDrain(s) {
        WithoutFirst(s.queue.messages);
        assert Ids(s.queue.messages[1..]) == Ids(s.queue.messages)[1..];
      }
    } else {
      assert EnsureThread(s).0 == s;
    }
  }

  lemma NumberedStep(q: Queue, r: Queue)
    requires Numbered(q) && FifoStep(q, r)
    ensures Numbered(r)
  {
    var n := |Ids(q.messages)|;
    if |r.messages| < n {
      assert forall i :: 0 <= i < |r.messages| ==> Ids(r.messages)[i] == Ids(q.messages)[i + 1];
    }
  }

  /** What left the queue, in order, followed by what waits, is what waited before followed by what
      was added since, in order. */
  predicate Conserved(q: Queue, r: Queue) {
    && |q.handed| <= |r.handed| && r.handed[..|q.handed|] == q.handed
    && HandedIds(r.handed[|q.handed|..]) + Ids(r.messages) == Ids(q.messages) + Range(q.nextMessage, r.nextMessage)
    && q.nextMessage <= r.nextMessage
  }

  lemma MoveFirst(handed: seq<nat>, id: nat, rest: seq<nat>)
    ensures handed + [id] + rest == handed + ([id] + rest)
  {
  }

  lemma MoveLast(front: seq<nat>, back: seq<nat>, id: nat)
    ensures front + (back + [id]) == front + back + [id]
  {
  }

  lemma ConservedDrain(q: Queue, r: Queue, t: Queue)
    requires Conserved(q, r) && r.messages != []
    requires t.handed == r.handed + [Handover(r.messages[0].id, true)] && Ids(t.messages) == Ids(r.messages)[1..]
    requires t.nextMessage == r.nextMessage
    ensures Conserved(q, t)
  {
    var n, id := |q.handed|, r.messages[0].id;
    assert t.handed[n..] == r.handed[n..] + [Handover(id, true)];
    assert HandedIds(t.handed[n..]) == HandedIds(r.handed[n..]) + [id];
    assert Ids(r.messages) == [id] + Ids(t.messages);
    MoveFirst(HandedIds(r.handed[n..]), id, Ids(t.messages));
  }

  lemma ConservedAdd(q: Queue, r: Queue, t: Queue)
    requires Conserved(q, r) && t.handed == r.handed && t.nextMessage == r.nextMessage + 1
    requires Ids(t.messages) == Ids(r.messages) + [r.nextMessage]
    ensures Conserved(q, t)
  {
    var n := |q.handed|;
    assert Range(q.nextMessage, t.nextMessage) == Range(q.nextMessage, r.nextMessage) + [r.nextMessage];
    MoveLast(HandedIds(r.handed[n..]), Ids(r.messages), r.nextMessage);
    MoveLast(Ids(q.messages), Range(q.nextMessage, r.nextMessage), r.nextMessage);
  }

  lemma ConservedStep(q: Queue, r: Queue, t: Queue)
    requires Conserved(q, r) && FifoStep(r, t)
    ensures Conserved(q, t)
  {
    if t.handed != r.handed {
      ConservedDrain(q, r, t);
    } else if t.nextMessage != r.nextMessage {
      ConservedAdd(q, r, t);
    }
  }

  /** While a thread is in view, no manual send is in flight and the queue is only added to and drained,
      messages leave in the order they came, and none is lost, repeated or overtaken. */
  lemma {:induction false} RunFifo(s: State, steps: seq<Step>, k: Option<nat>) returns (l: Option<nat>)
    requires Sound(s, k) && Quiet(s) && !s.acting && Numbered(s.queue)
    requires forall i :: 0 <= i < |steps| ==> Plain(steps[i])
    ensures Conserved(s.queue, Exec(s, steps).queue)
    ensures Sound(Exec(s, steps), l) && Quiet(Exec(s, steps)) && !Exec(s, steps).acting
    ensures Numbered(Exec(s, steps).queue)
  {
    if steps == [] {
      l := k;
      assert s.queue.handed[|s.queue.handed|..] == [];
      assert [] + Ids(s.queue.messages) == Ids(s.queue.messages) + [];
    } else {
      var front, step := steps[..|steps| - 1], steps[|steps| - 1];
      l := RunFifo(s, front, k);
      var t := Exec(s, front);
      NextFifo(t, step, l);
      NumberedStep(t.queue, Next(t, step).queue);
      ConservedStep(s.queue, t.queue, Next(t, step).queue);
      l := NextSound(t, step, l);
    }
  }
}
