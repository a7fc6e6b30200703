/** Which messages the queue's requests carry: they are the ones handed over, the first waiting one or the
    one asked for, each at most once and in order. */
module SessionSends {
  import opened Wrappers
  import opened Keyed
  import opened Session
  import opened SessionSafety
  import opened SessionSelection
  import opened SessionOnce
  import opened SessionCalls

  /** The reply that ends a manual send says that the message was taken. */
  predicate Accepted(stage: Stage, r: Reply) {
    || stage.SetGoal? || stage.Resolved?
    || (r.Answer? && (stage.BeginTurn? ==> r.turn.Some?))
  }

  /** The message that a step sends: of the turn request that a drain makes, or of a manual send that
      ends accepted. */
  function Sent(s: State, step: Step): (r: seq<Message>)
    ensures |r| <= 1
  {
    var t := Next(s, step);
    if s.nextCall in t.calls && t.calls[s.nextCall].origin.FromQueue? then [t.calls[s.nextCall].origin.msg]
    else if step.Settle? && step.call in s.calls && s.calls[step.call].origin.ByHand? && step.call !in t.calls
            && Accepted(s.calls[step.call].stage, step.reply) then [s.calls[step.call].origin.msg]
    else []
  }

  /** The messages that a run sends, in order. */
  function SentIn(s: State, steps: seq<Step>): seq<Message> {
    if steps == [] then []
    else
      var front := steps[..|steps| - 1];
      SentIn(s, front) + Sent(Exec(s, front), steps[|steps| - 1])
  }

  // ----- what is handed over is what was sent -----

  predicate Logs(s: State, step: Step) {
    Next(s, step).queue.handed
    == s.queue.handed + if Sent(s, step) == [] then [] else [Handover(Sent(s, step)[0].id, step.Drain?)]
  }

  lemma BeginTurnEnds(s: State, c: nat, call: Call, r: Reply)
    requires call.origin.ByHand? && call.stage.BeginTurn? && c !in s.calls && c < s.nextCall
    requires c !in ResolveBeginTurn(s, c, call, r).calls
    ensures ResolveBeginTurn(s, c, call, r).queue.handed
         == s.queue.handed + if Accepted(call.stage, r) then [Handover(call.origin.msg.id, false)] else []
  {
    FinishTurnEffect(s, c, call);
    if r.Answer? {
      FinishTurnEffect(TurnRunning(s, r.turn), c, call);
      SettingGoalEffect(TurnRunning(s, r.turn), c, call.token, call.origin);
    }
  }

  /** A manual send that ends logs its message exactly when it was accepted. */
  lemma ByHandEnds(s: State, c: nat, call: Call, r: Reply)
    requires call.origin.ByHand? && QueueStage(call.stage) && c !in s.calls && c < s.nextCall
    requires c !in Resolve(s, c, call, r).calls
    ensures Resolve(s, c, call, r).queue.handed
         == s.queue.handed + if Accepted(call.stage, r) then [Handover(call.origin.msg.id, false)] else []
  {
    if call.stage.BeginTurn? {
      BeginTurnEnds(s, c, call, r);
    } else {
      FinishTurnEffect(s, c, call);
    }
  }

  lemma SettleLogs(s: State, c: nat, r: Reply, k: Option<nat>)
    requires Sound(s, k) && c in s.calls && !Blocked(s, c)
    ensures Logs(s, Settle(c, r))
  {
    var call, rest := s.calls[c], s.(calls := s.calls - {c});
    var t := Resolve(rest, c, call, r);
    var l := SettleSound(s, c, r, k);
    ResolveStarts(rest, c, call, r);
    if call.origin.ByHand? && c !in t.calls {
      ByHandEnds(rest, c, call, r);
    } else if ForQueue(call) {
      var ok := ServingEffect(rest, c, call, r);
    } else {
      OtherEffect(rest, c, call, r);
    }
  }

  /** What a step adds to the log is the message it sends, by the drain or by hand. */
  lemma NextLogs(s: State, step: Step, k: Option<nat>)
    requires Sound(s, k)
    ensures Logs(s, step)
  {
    EnsureThreadEffect(s);
    if step.Settle? {
      if step.call in s.calls && !Blocked(s, step.call) {
        SettleLogs(s, step.call, step.reply, k);
      }
    } else if step.Drain? {
      var l := DrainSound(s, k);
    }
  }

  lemma IdsConcat(a: seq<Message>, b: seq<Message>)
    ensures Ids(a + b) == Ids(a) + Ids(b)
  {
  }

  lemma LogIds(handed: seq<Handover>, sent: seq<Message>, byDrain: bool)
    requires |sent| <= 1
    ensures HandedIds(handed + if sent == [] then [] else [Handover(sent[0].id, byDrain)])
         == HandedIds(handed) + Ids(sent)
  {
  }

  lemma Joined(a: seq<nat>, b: seq<nat>, c: seq<nat>)
    ensures a + b + c == a + (b + c)
  {
  }

  /** Over every run the log of what was handed over is the list of the messages sent. */
  lemma {:induction false} RunLogs(s: State, steps: seq<Step>, k: Option<nat>) returns (l: Option<nat>)
    requires Sound(s, k)
    ensures Sound(Exec(s, steps), l)
    ensures HandedIds(Exec(s, steps).queue.handed) == HandedIds(s.queue.handed) + Ids(SentIn(s, steps))
  {
    l := k;
    if steps == [] {
      assert HandedIds(s.queue.handed) + [] == HandedIds(s.queue.handed);
    } else {
      var front, step := steps[..|steps| - 1], steps[|steps| - 1];
      l := RunLogs(s, front, k);
      var t := Exec(s, front);
      NextLogs(t, step, l);
      LogIds(t.queue.handed, Sent(t, step), step.Drain?);
      IdsConcat(SentIn(s, front), Sent(t, step));
      Joined(HandedIds(s.queue.handed), Ids(SentIn(s, front)), Ids(Sent(t, step)));
      l := NextSound(t, step, l);
    }
  }

  lemma InitialLogs(steps: seq<Step>)
    ensures HandedIds(Exec(Initial, steps).queue.handed) == Ids(SentIn(Initial, steps))
  {
    var l := RunLogs(Initial, steps, None);
    assert HandedIds([]) + Ids(SentIn(Initial, steps)) == Ids(SentIn(Initial, steps));
  }

  // ----- each message at most once, in order -----

  /** In every careful run no message is sent twice, and none that waits was sent. */
  lemma SendsAtMostOnce(steps: seq<Step>)
    requires Careful(Initial, steps)
    ensures Distinct(Ids(SentIn(Initial, steps)))
    ensures forall m :: m in Exec(Initial, steps).queue.messages ==> m.id !in Ids(SentIn(Initial, steps))
  {
    InitialLogs(steps);
    var k := CarefulFresh(Initial, steps, None);
  }

  lemma HandedSuffix(a: seq<Handover>, b: seq<Handover>, ids: seq<nat>)
    requires |a| <= |b| && b[..|a|] == a && HandedIds(b) == HandedIds(a) + ids
    ensures HandedIds(b[|a|..]) == ids
  {
    var rest := b[|a|..];
    assert |HandedIds(rest)| == |ids|;
    forall i | 0 <= i < |ids|
      ensures HandedIds(rest)[i] == ids[i]
    {
      assert HandedIds(b)[|a| + i] == (HandedIds(a) + ids)[|a| + i];
    }
  }

  /** While a thread is in view, no manual send is in flight and the queue is only added to and drained, the
      messages sent followed by those that wait are those that waited followed by those added, in order. */
  lemma SendsInOrder(s: State, steps: seq<Step>, k: Option<nat>)
    requires Sound(s, k) && Quiet(s) && !s.acting && Numbered(s.queue)
    requires forall i :: 0 <= i < |steps| ==> Plain(steps[i])
    ensures var t := Exec(s, steps);
      Ids(SentIn(s, steps)) + Ids(t.queue.messages)
      == Ids(s.queue.messages) + Range(s.queue.nextMessage, t.queue.nextMessage)
  {
    var l := RunFifo(s, steps, k);
    l := RunLogs(s, steps, k);
    HandedSuffix(s.queue.handed, Exec(s, steps).queue.handed, Ids(SentIn(s, steps)));
  }

  // ----- what was sent had been waiting -----

  /** A drain sends the first waiting message as it stands, to the thread in view, as a goal if it is one. */
  lemma DrainSendsFirst(s: State, k: Option<nat>)
    requires Sound(s, k) && CanDrain(s)
    ensures var t, m := Next(s, Drain), s.queue.messages[0];
      && Sent(s, Drain) == [m] && t.calls.Keys == s.calls.Keys + {s.nextCall}
      && (s.view.viewed.Some? ==>
            t.calls[s.nextCall] == Call(s.selection, FromQueue(m), BeginTurn(s.view.viewed.value, m.asGoal)))
      && m.id !in Ids(t.queue.messages)
  {
    var l := DrainSound(s, k);
    NewServes(s, Drain, s.nextCall, k);
    QueuedIds(Next(s, Drain).queue.messages);
  }

  /** Over every run a message sent was the first one waiting when the drain sent it, or the one that the
      manual send asked for was waiting when it was asked for. */
  lemma SentWasWaiting(steps: seq<Step>, i: nat, m: Message) returns (j: nat)
    requires i < |steps| && m in Sent(At(Initial, steps, i), steps[i])
    ensures j <= i
    ensures var q := At(Initial, steps, j).queue.messages;
      || (steps[j].Drain? && j == i && q != [] && q[0] == m)
      || (steps[j].SendQueued? && FindMessage(q, steps[j].id) == Some(m))
  {
    var s, step := At(Initial, steps, i), steps[i];
    var k := RunSound(steps[..i]);
    if s.nextCall in Next(s, step).calls && Next(s, step).calls[s.nextCall].origin.FromQueue? {
      NewServes(s, step, s.nextCall, k);
      j := i;
    } else {
      j := CallsServe(steps[..i], step.call);
      assert steps[..i][j] == steps[j] && steps[..i][..j] == steps[..j];
    }
  }

  // ----- where a waiting message comes from -----

  /** `m` was waiting before, with this or another text. */
  predicate Kept(s: State, step: Step, m: Message) {
    || m in s.queue.messages
    || (step == EditQueued(m.id, m.text) && exists was :: was in s.queue.messages && m == was.(text := m.text))
  }

  /** `m` is the text of a send that waited for its thread. */
  predicate Arrives(s: State, step: Step, m: Message) {
    && step.Settle? && step.call in s.calls && s.calls[step.call].stage.Ensure?
    && var stage := s.calls[step.call].stage; stage.text == m.text && stage.asGoal == m.asGoal && stage.queueing
  }

  lemma SettleMessage(s: State, c: nat, r: Reply, m: Message, k: Option<nat>)
    requires Sound(s, k) && c in s.calls && m in Resolve(s.(calls := s.calls - {c}), c, s.calls[c], r).queue.messages
    ensures m in s.queue.messages || Arrives(s, Settle(c, r), m)
  {
    var call, rest := s.calls[c], s.(calls := s.calls - {c});
    if ForQueue(call) {
      var ok := ServingEffect(rest, c, call, r);
    } else {
      OtherEffect(rest, c, call, r);
    }
  }

  lemma EditedMessage(queue: seq<Message>, id: nat, text: string, m: Message)
    requires m in Edit(queue, id, text)
    ensures m in queue || (m.id == id && m.text == text && exists was :: was in queue && m == was.(text := m.text))
  {
    var i :| 0 <= i < |queue| && Edit(queue, id, text)[i] == m;
    assert queue[i] in queue;
  }

  lemma NextMessage(s: State, step: Step, m: Message, k: Option<nat>)
    requires Sound(s, k) && m in Next(s, step).queue.messages
    ensures Kept(s, step, m) || Arrives(s, step, m)
  {
    EnsureThreadEffect(s);
    if step.Settle? {
      if step.call in s.calls && !Blocked(s, step.call) {
        SettleMessage(s, step.call, step.reply, m, k);
      }
    } else if step.EditQueued? {
      EditedMessage(s.queue.messages, step.id, step.text, m);
    }
  }

  /** The send that a waiting message came from: it was to be queued, and its text is the one sent or the
      one it was last given since. */
  ghost predicate CameFrom(steps: seq<Step>, m: Message, i: nat) {
    && i < |steps| && steps[i].Send? && steps[i].queueing && steps[i].asGoal == m.asGoal
    && (steps[i].text == m.text || exists j :: i < j < |steps| && steps[j] == EditQueued(m.id, m.text))
  }

  lemma CameFromLonger(steps: seq<Step>, m: Message, i: nat)
    requires steps != [] && CameFrom(steps[..|steps| - 1], m, i)
    ensures CameFrom(steps, m, i)
  {
    var front := steps[..|steps| - 1];
    if steps[i].text != m.text {
      var j :| i < j < |front| && front[j] == EditQueued(m.id, m.text);
      assert steps[j] == EditQueued(m.id, m.text);
    }
  }

  /** In every run each waiting message came from a send. */
  lemma {:induction false} WaitingCameFrom(steps: seq<Step>, m: Message) returns (i: nat)
    requires m in Exec(Initial, steps).queue.messages
    ensures CameFrom(steps, m, i)
  {
    var n := |steps| - 1;
    var front, step := steps[..n], steps[n];
    var s := Exec(Initial, front);
    var k := RunSound(front);
    NextMessage(s, step, m, k);
    if m in s.queue.messages {
      i := WaitingCameFrom(front, m);
      CameFromLonger(steps, m, i);
    } else if Kept(s, step, m) {
      var was :| was in s.queue.messages && m == was.(text := m.text);
      i := WaitingCameFrom(front, was);
      assert steps[n] == EditQueued(m.id, m.text);
    } else {
      i := CallsServe(front, step.call);
      assert front[i] == steps[i];
    }
  }
}
