/** What reordering does to the queue, and when the identifiers in it stay distinct. */
module SessionQueue {
  import opened Wrappers
  import opened Keyed
  import opened Session
  import opened SessionSafety

  /** The elements of `xs` that are, or are not, in `ys`. */
  function Filtered(xs: seq<nat>, ys: seq<nat>, keep: bool): (r: seq<nat>)
    ensures forall x :: x in r <==> x in xs && (x in ys) == keep
  {
    if xs == [] then []
    else (if (xs[0] in ys) == keep then [xs[0]] else []) + Filtered(xs[1..], ys, keep)
  }

  /** No waiting message is named twice. */
  predicate NamesOnce(ids: seq<nat>, waiting: seq<nat>) {
    forall i, j :: 0 <= i < j < |ids| && ids[i] == ids[j] ==> ids[i] !in waiting
  }

  lemma IdsAppend(front: seq<Message>, back: seq<Message>)
    ensures Ids(front + back) == Ids(front) + Ids(back)
  {
  }

  lemma {:induction false} PickedIds(queue: seq<Message>, ids: seq<nat>)
    ensures Ids(Picked(queue, ids)) == Filtered(ids, Ids(queue), true)
  {
    if ids != [] {
      PickedIds(queue, ids[1..]);
      QueuedIds(queue);
      var o := FindLast(queue, ids[0]);
      IdsAppend(if o.Some? then [o.value] else [], Picked(queue, ids[1..]));
    }
  }

  lemma {:induction false} UnnamedIds(queue: seq<Message>, ids: seq<nat>)
    ensures Ids(Unnamed(queue, ids)) == Filtered(Ids(queue), ids, false)
  {
    if queue != [] {
      UnnamedIds(queue[1..], ids);
      assert Ids(queue)[1..] == Ids(queue[1..]);
      IdsAppend(if queue[0].id in ids then [] else [queue[0]], Unnamed(queue[1..], ids));
    }
  }

  lemma DistinctAppend(xs: seq<nat>, ys: seq<nat>)
    ensures Distinct(xs + ys) <==> Distinct(xs) && Distinct(ys) && forall x :: x in xs ==> x !in ys
  {
    var zs := xs + ys;
    assert forall i :: 0 <= i < |xs| ==> zs[i] == xs[i];
    if Distinct(zs) {
      forall i, j | 0 <= i < j < |ys|
        ensures ys[i] != ys[j]
      {
        assert zs[|xs| + i] != zs[|xs| + j];
      }
      forall i, j | 0 <= i < |xs| && 0 <= j < |ys|
        ensures xs[i] != ys[j]
      {
        assert zs[i] != zs[|xs| + j];
      }
    } else {
      var i, j :| 0 <= i < j < |zs| && zs[i] == zs[j];
      if |xs| <= i {
        assert ys[i - |xs|] == ys[j - |xs|];
      } else if |xs| <= j {
        assert xs[i] == ys[j - |xs|] && xs[i] in xs;
      }
    }
  }

  lemma NamesOnceStep(xs: seq<nat>, ys: seq<nat>)
    requires xs != []
    ensures NamesOnce(xs, ys) <==> NamesOnce(xs[1..], ys) && (xs[0] in ys ==> xs[0] !in xs[1..])
  {
    var rest := xs[1..];
    assert forall i :: 0 <= i < |rest| ==> rest[i] == xs[i + 1];
    if NamesOnce(xs, ys) {
      forall i, j | 0 <= i < j < |rest| && rest[i] == rest[j]
        ensures rest[i] !in ys
      {
        assert xs[i + 1] == xs[j + 1];
      }
    } else {
      var i, j :| 0 <= i < j < |xs| && xs[i] == xs[j] && xs[i] in ys;
      assert rest[j - 1] == xs[j] && (i > 0 ==> rest[i - 1] == xs[i]);
    }
  }

  lemma {:induction false} FilteredOnce(xs: seq<nat>, ys: seq<nat>)
    ensures Distinct(Filtered(xs, ys, true)) <==> NamesOnce(xs, ys)
  {
    if xs != [] {
      FilteredOnce(xs[1..], ys);
      NamesOnceStep(xs, ys);
      var r := Filtered(xs[1..], ys, true);
      DistinctAppend([xs[0]], r);
      assert xs[0] in [xs[0]] && [] + r == r;
    }
  }

  lemma {:induction false} FilteredDistinct(xs: seq<nat>, ys: seq<nat>, keep: bool)
    requires Distinct(xs)
    ensures Distinct(Filtered(xs, ys, keep))
  {
    if xs != [] {
      assert xs == [xs[0]] + xs[1..];
      DistinctAppend([xs[0]], xs[1..]);
      FilteredDistinct(xs[1..], ys, keep);
      DistinctAppend([xs[0]], Filtered(xs[1..], ys, keep));
    }
  }

  /** The named messages that wait come first, in the order named, and the others after them in their old
      order. No message comes or goes, and each still waits once exactly when no waiting message is named
      twice. */
  ghost predicate Reordered(queue: seq<Message>, ids: seq<nat>, r: seq<Message>) {
    && Ids(r) == Filtered(ids, Ids(queue), true) + Filtered(Ids(queue), ids, false)
    && (forall m :: m in r <==> m in queue)
    && (Distinct(Ids(r)) <==> NamesOnce(ids, Ids(queue)))
  }

  lemma ReorderMeaning(queue: seq<Message>, ids: seq<nat>)
    requires Distinct(Ids(queue))
    ensures Reordered(queue, ids, Reorder(queue, ids))
  {
    PickedIds(queue, ids);
    UnnamedIds(queue, ids);
    IdsAppend(Picked(queue, ids), Unnamed(queue, ids));
    FilteredOnce(ids, Ids(queue));
    FilteredDistinct(Ids(queue), ids, false);
    DistinctAppend(Filtered(ids, Ids(queue), true), Filtered(Ids(queue), ids, false));
    forall m | m in queue && m.id in ids
      ensures m in Picked(queue, ids)
    {
      var i :| 0 <= i < |ids| && ids[i] == m.id;
      PickedAt(queue, ids, i, m);
    }
  }

  /** Naming a waiting message twice puts it into the queue twice. */
  lemma NamedTwice(m: Message)
    ensures Reorder([m], [m.id, m.id]) == [m, m]
  {
    var ids := [m.id, m.id];
    assert ids[1..] == [m.id] && [m.id][1..] == [] && [m][1..] == [];
    assert FindLast([m], m.id) == Some(m);
    assert Picked([m], [m.id]) == [m] + Picked([m], []);
    assert m.id in ids;
    assert Unnamed([m], ids) == [];
  }

  lemma {:induction false} FindLastUnique(queue: seq<Message>, m: Message)
    requires Distinct(Ids(queue)) && m in queue
    ensures FindLast(queue, m.id) == Some(m)
  {
    var n := |queue| - 1;
    var i :| 0 <= i < |queue| && queue[i] == m;
    assert Ids(queue)[i] == m.id && Ids(queue)[n] == queue[n].id;
    if i < n {
      assert Ids(queue[..n]) == Ids(queue)[..n];
      FindLastUnique(queue[..n], m);
    }
  }

  lemma {:induction false} PickedAt(queue: seq<Message>, ids: seq<nat>, i: nat, m: Message)
    requires Distinct(Ids(queue)) && i < |ids| && m in queue && ids[i] == m.id
    ensures m in Picked(queue, ids)
  {
    if i == 0 {
      FindLastUnique(queue, m);
    } else {
      PickedAt(queue, ids[1..], i - 1, m);
    }
  }

  lemma SubsetNumbered(q: Queue, r: Queue)
    requires Numbered(q) && r.nextMessage == q.nextMessage
    requires forall m :: m in r.messages ==> m.id in Ids(q.messages)
    ensures Numbered(r) <==> Distinct(Ids(r.messages))
  {
    forall i | 0 <= i < |r.messages|
      ensures Ids(r.messages)[i] < r.nextMessage
    {
      assert r.messages[i] in r.messages;
    }
  }

  lemma {:induction false} WithoutUnnamed(queue: seq<Message>, id: nat)
    ensures Without(queue, id) == Unnamed(queue, [id])
  {
    if queue != [] {
      WithoutUnnamed(queue[1..], id);
    }
  }

  lemma WithoutNumbered(q: Queue, id: nat, r: Queue)
    requires Numbered(q) && r.nextMessage == q.nextMessage && r.messages == Without(q.messages, id)
    ensures Numbered(r)
  {
    WithoutUnnamed(q.messages, id);
    UnnamedIds(q.messages, [id]);
    FilteredDistinct(Ids(q.messages), [id], false);
    QueuedIds(q.messages);
    SubsetNumbered(q, r);
  }

  lemma SettleNumbered(s: State, c: nat, r: Reply, k: Option<nat>)
    requires Sound(s, k) && Numbered(s.queue) && c in s.calls
    ensures Numbered(Resolve(s.(calls := s.calls - {c}), c, s.calls[c], r).queue)
  {
    var call, rest := s.calls[c], s.(calls := s.calls - {c});
    var t := Resolve(rest, c, call, r);
    if ForQueue(call) {
      var ok := ServingEffect(rest, c, call, r);
      if t.queue.messages != s.queue.messages {
        WithoutNumbered(s.queue, call.origin.msg.id, t.queue);
      }
    } else {
      OtherEffect(rest, c, call, r);
      if call.stage.Ensure? {
        IdsAppend(s.queue.messages, [Message(s.queue.nextMessage, call.stage.text, call.stage.asGoal)]);
      }
    }
  }

  /** A step keeps the identifiers in the queue distinct, unless it names a waiting message twice. */
  lemma NextNumbered(s: State, step: Step, k: Option<nat>)
    requires Sound(s, k) && Numbered(s.queue)
    ensures Numbered(Next(s, step).queue) <==> (step.OrderQueued? ==> NamesOnce(step.ids, Ids(s.queue.messages)))
  {
    var q, t := s.queue, Next(s, step).queue;
    EnsureThreadEffect(s);
    if step.OrderQueued? {
      ReorderMeaning(q.messages, step.ids);
      QueuedIds(q.messages);
      SubsetNumbered(q, t);
    } else if step.Settle? {
      if step.call in s.calls && !Blocked(s, step.call) {
        SettleNumbered(s, step.call, step.reply, k);
      }
    } else if step.Drain? {
      if CanDrain(s) {
        WithoutNumbered(q, q.messages[0].id, t);
      }
    } else if step.RemoveQueued? {
      WithoutNumbered(q, step.id, t);
    }
  }

  /** While no reordering names a waiting message twice, the identifiers in the queue stay distinct. */
  lemma {:induction false} RunNumbered(steps: seq<Step>)
    requires forall i :: 0 <= i < |steps| && steps[i].OrderQueued? ==>
      NamesOnce(steps[i].ids, Ids(Exec(Initial, steps[..i]).queue.messages))
    ensures Numbered(Exec(Initial, steps).queue)
  {
    if steps != [] {
      var front := steps[..|steps| - 1];
      forall i | 0 <= i < |front| && front[i].OrderQueued?
        ensures NamesOnce(front[i].ids, Ids(Exec(Initial, front[..i]).queue.messages))
      {
        assert front[..i] == steps[..i] && front[i] == steps[i];
      }
      RunNumbered(front);
      var k := RunSound(front);
      NextNumbered(Exec(Initial, front), steps[|steps| - 1], k);
    }
  }
}
