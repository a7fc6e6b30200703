/** The client that talks to the app server: one queue of arriving messages, one buffer of events, and
    waits that consume the queue. */
module AppServer {
  import opened Wrappers
  import opened Json

  const ELICITATION := "mcpServer/elicitation/request"

  predicate Has(m: Json, key: string) { m.Object? && key in m.fields }

  /** A request that the server makes of the client. */
  predicate IsServerRequest(m: Json) { Has(m, "id") && Get(m, "method").Str? }

  predicate IsResponse(m: Json, id: int) { Get(m, "id") == Num(id) && !Has(m, "method") }

  datatype Reply = Accept(content: Json) | Unsupported(methodName: string)

  datatype Outgoing =
    | Notice(methodName: string)
    | Call(id: int, methodName: string, params: Json)
    | Answer(to: Json, reply: Reply)

  function ElicitationParams(m: Json): Json {
    if Get(m, "params").Object? then Get(m, "params") else Object(map[])
  }

  /** What the client answers to a server request; `content` fills in the form of an elicitation. */
  function AnswerTo(m: Json, content: Json -> Json): Outgoing
    requires IsServerRequest(m)
  {
    if Get(m, "method").s == ELICITATION then Answer(Get(m, "id"), Accept(content(ElicitationParams(m))))
    else Answer(Get(m, "id"), Unsupported(Get(m, "method").s))
  }

  /** An elicitation is accepted with the content for its form, an empty one if it names none; any other
      request is refused by name. The answer goes to the request. */
  predicate Answered(m: Json, o: Outgoing, content: Json -> Json) {
    && IsServerRequest(m) && o.Answer? && o.to == Get(m, "id")
    && (Get(m, "method") == Str("mcpServer/elicitation/request") ==>
          o.reply == Accept(content(if Get(m, "params").Object? then Get(m, "params") else Object(map[]))))
    && (Get(m, "method") != Str("mcpServer/elicitation/request") ==> o.reply == Unsupported(Get(m, "method").s))
  }

  lemma AnswerRight(m: Json, content: Json -> Json)
    requires IsServerRequest(m)
    ensures Answered(m, AnswerTo(m, content), content)
  {
  }

  /** The answers due for a list of messages: one for each server request, in order. */
  function AnswersDue(events: seq<Json>, content: Json -> Json): seq<Outgoing> {
    if events == [] then []
    else
      var m := events[|events| - 1];
      AnswersDue(events[..|events| - 1], content) + if IsServerRequest(m) then [AnswerTo(m, content)] else []
  }

  function Answers(sent: seq<Outgoing>): seq<Outgoing> {
    if sent == [] then []
    else Answers(sent[..|sent| - 1]) + if sent[|sent| - 1].Answer? then [sent[|sent| - 1]] else []
  }

  /** The ids of the client's own requests, in the order they were sent. */
  function CallIds(sent: seq<Outgoing>): seq<int> {
    if sent == [] then []
    else CallIds(sent[..|sent| - 1]) + if sent[|sent| - 1].Call? then [sent[|sent| - 1].id] else []
  }

  function Elicitations(events: seq<Json>): seq<Json> {
    if events == [] then []
    else
      var m := events[|events| - 1];
      Elicitations(events[..|events| - 1])
      + if IsServerRequest(m) && Get(m, "method").s == ELICITATION && Get(m, "params").Object? then [Get(m, "params")]
        else []
  }

  lemma LogSnoc(sent: seq<Outgoing>, o: Outgoing, events: seq<Json>, m: Json, content: Json -> Json)
    ensures Answers(sent + [o]) == if o.Answer? then Answers(sent) + [o] else Answers(sent)
    ensures CallIds(sent + [o]) == if o.Call? then CallIds(sent) + [o.id] else CallIds(sent)
    ensures AnswersDue(events + [m], content)
         == if IsServerRequest(m) then AnswersDue(events, content) + [AnswerTo(m, content)]
            else AnswersDue(events, content)
    ensures Elicitations(events + [m])
         == if IsServerRequest(m) && Get(m, "method").s == ELICITATION && Get(m, "params").Object?
            then Elicitations(events) + [Get(m, "params")] else Elicitations(events)
  {
    assert (sent + [o])[..|sent|] == sent && (events + [m])[..|events|] == events;
    assert Answers(sent) + [] == Answers(sent) && CallIds(sent) + [] == CallIds(sent);
    assert AnswersDue(events, content) + [] == AnswersDue(events, content);
    assert Elicitations(events) + [] == Elicitations(events);
  }

  datatype Failure = TimedOut | Closed

  /** What a wait is for: a notification whose parameters are accepted. */
  datatype Goal = Goal(methodName: string, accepts: Json -> bool)

  predicate Matches(m: Json, goal: Goal) {
    Get(m, "method") == Str(goal.methodName) && Get(m, "params").Object? && goal.accepts(Get(m, "params"))
  }

  /** In the queue only what is not a server request can end a wait. */
  predicate Ends(m: Json, goal: Goal) { !IsServerRequest(m) && Matches(m, goal) }

  function FirstMatch(ms: seq<Json>, goal: Goal): Option<Json> {
    if ms == [] then None else if Matches(ms[0], goal) then Some(ms[0]) else FirstMatch(ms[1..], goal)
  }

  function FirstEnding(ms: seq<Json>, goal: Goal): Option<Json> {
    if ms == [] then None else if Ends(ms[0], goal) then Some(ms[0]) else FirstEnding(ms[1..], goal)
  }

  function From(events: seq<Json>, after: nat): seq<Json> {
    if after <= |events| then events[after..] else []
  }

  /** The messages of a queue up to the end of the stream. */
  function Arriving(queue: seq<Option<Json>>): seq<Json> {
    if queue == [] || queue[0].None? then [] else [queue[0].value] + Arriving(queue[1..])
  }

  /** What a wait finds, given the buffered events and the messages still to come. */
  function Awaited(events: seq<Json>, coming: seq<Json>, after: nat, goal: Goal): Option<Json> {
    var buffered := FirstMatch(From(events, after), goal);
    if buffered.Some? then buffered else FirstEnding(coming, goal)
  }

  /** `n` messages were taken from the queue. */
  ghost predicate Took(queue: seq<Option<Json>>, n: nat, taken: seq<Json>) {
    n <= |queue| && |taken| == n && forall i :: 0 <= i < n ==> queue[i] == Some(taken[i])
  }

  /** Each server request among the events was answered once, in order and with its own id, and the
      client's own requests are numbered from one. */
  ghost predicate Accounted(nextId: int, events: seq<Json>, elicitations: seq<Json>, sent: seq<Outgoing>,
                            content: Json -> Json) {
    && Answers(sent) == AnswersDue(events, content) && elicitations == Elicitations(events)
    && nextId == |CallIds(sent)| + 1 && Counting(CallIds(sent))
  }

  /** One, two, three and so on. */
  predicate Counting(ids: seq<int>) { forall i :: 0 <= i < |ids| ==> ids[i] == i + 1 }

  lemma CountingSnoc(ids: seq<int>)
    requires Counting(ids)
    ensures Counting(ids + [|ids| + 1]) && |ids + [|ids| + 1]| == |ids| + 1
  {
  }

  /** No message of a list answers request `id`. */
  predicate NoResponse(ms: seq<Json>, id: int) { forall i :: 0 <= i < |ms| ==> !IsResponse(ms[i], id) }

  lemma NoResponseSnoc(ms: seq<Json>, m: Json, id: int)
    requires NoResponse(ms, id) && !IsResponse(m, id)
    ensures NoResponse(ms + [m], id)
  {
  }

  predicate AsksUser(m: Json) { IsServerRequest(m) && Get(m, "method").s == ELICITATION && Get(m, "params").Object? }

  lemma AnswerAccounted(nextId: int, events: seq<Json>, elicitations: seq<Json>, sent: seq<Outgoing>,
                        content: Json -> Json, m: Json)
    requires Accounted(nextId, events, elicitations, sent, content) && IsServerRequest(m)
    ensures Accounted(nextId, events + [m], if AsksUser(m) then elicitations + [Get(m, "params")] else elicitations,
                      sent + [AnswerTo(m, content)], content)
  {
    LogSnoc(sent, AnswerTo(m, content), events, m, content);
  }

  lemma EventAccounted(nextId: int, events: seq<Json>, elicitations: seq<Json>, sent: seq<Outgoing>,
                       content: Json -> Json, m: Json)
    requires Accounted(nextId, events, elicitations, sent, content) && !IsServerRequest(m)
    ensures Accounted(nextId, events + [m], elicitations, sent, content)
  {
    LogSnoc(sent, Notice(""), events, m, content);
  }

  lemma SentAccounted(nextId: int, events: seq<Json>, elicitations: seq<Json>, sent: seq<Outgoing>,
                      content: Json -> Json, o: Outgoing)
    requires Accounted(nextId, events, elicitations, sent, content) && (o.Notice? || (o.Call? && o.id == nextId))
    ensures Accounted(if o.Call? then nextId + 1 else nextId, events, elicitations, sent + [o], content)
  {
    LogSnoc(sent, o, events, Null, content);
    CountingSnoc(CallIds(sent));
  }

  lemma TookSnoc(queue: seq<Option<Json>>, taken: seq<Json>, m: Json)
    requires Took(queue, |taken|, taken) && |taken| < |queue| && queue[|taken|] == Some(m)
    ensures Took(queue, |taken + [m]|, taken + [m]) && queue[|taken|..][1..] == queue[|taken + [m]|..]
    ensures forall before: seq<Json> :: before + taken + [m] == before + (taken + [m])
  {
  }

  lemma DueSnoc(wrote: seq<Outgoing>, taken: seq<Json>, m: Json, content: Json -> Json)
    ensures wrote + AnswersDue(taken, content) + (if IsServerRequest(m) then [AnswerTo(m, content)] else [])
         == wrote + AnswersDue(taken + [m], content)
  {
    LogSnoc([], Notice(""), taken, m, content);
  }

  class Client {
    var nextId: int
    var events: seq<Json>
    var elicitations: seq<Json>
    var messages: seq<Option<Json>>
    var sent: seq<Outgoing>
    const content: Json -> Json

    ghost predicate Valid()
      reads this
    {
      Accounted(nextId, events, elicitations, sent, content)
    }

    constructor (arrivals: seq<Option<Json>>, content: Json -> Json)
      ensures Valid() && events == [] && messages == arrivals && sent == [] && nextId == 1
    {
      this.content := content;
      nextId, events, elicitations, messages, sent := 1, [], [], arrivals, [];
    }

    method HandleServerRequest(m: Json)
      requires Valid() && IsServerRequest(m)
      modifies this`events, this`elicitations, this`sent
      ensures Valid() && events == old(events) + [m] && sent == old(sent) + [AnswerTo(m, content)]
      ensures Answered(m, sent[|sent| - 1], content)
    {
      AnswerAccounted(nextId, events, elicitations, sent, content, m);
      AnswerRight(m, content);
      ghost var asked := if AsksUser(m) then elicitations + [Get(m, "params")] else elicitations;
      events := events + [m];
      var reply;
      if Get(m, "method").s == ELICITATION {
        var params := Get(m, "params");
        if params.Object? {
          elicitations := elicitations + [params];
        } else {
          params := Object(map[]);
        }
        reply := Accept(content(params));
      } else {
        reply := Unsupported(Get(m, "method").s);
      }
      var answer := Answer(Get(m, "id"), reply);
      assert answer == AnswerTo(m, content);
      assert elicitations == asked;
      sent := sent + [answer];
    }

    method Buffer(m: Json)
      requires Valid() && !IsServerRequest(m)
      modifies this`events
      ensures Valid() && events == old(events) + [m]
    {
      EventAccounted(nextId, events, elicitations, sent, content, m);
      events := events + [m];
    }

    /** Take in a message that ends no wait by itself. */
    method Absorb(m: Json)
      requires Valid()
      modifies this`events, this`elicitations, this`sent
      ensures Valid() && events == old(events) + [m]
      ensures sent == old(sent) + if IsServerRequest(m) then [AnswerTo(m, content)] else []
    {
      if IsServerRequest(m) {
        HandleServerRequest(m);
      } else {
        Buffer(m);
      }
    }

    /** Where a wait stands: it began with the queue `queue`, the events `before` and `wrote` sent. */
    ghost predicate Taking(queue: seq<Option<Json>>, before: seq<Json>, wrote: seq<Outgoing>, taken: seq<Json>)
      reads this
    {
      && Valid() && Took(queue, |taken|, taken) && events == before + taken && messages == queue[|taken|..]
      && sent == wrote + AnswersDue(taken, content)
    }

    /** Take the next message off the queue and absorb it. */
    method TakeNext(ghost queue: seq<Option<Json>>, ghost before: seq<Json>, ghost wrote: seq<Outgoing>,
                    ghost taken: seq<Json>)
      requires Taking(queue, before, wrote, taken) && messages != [] && messages[0].Some?
      modifies this`events, this`elicitations, this`messages, this`sent
      ensures Taking(queue, before, wrote, taken + [old(messages)[0].value])
    {
      var m := messages[0].value;
      TookSnoc(queue, taken, m);
      DueSnoc(wrote, taken, m, content);
      messages := messages[1..];
      Absorb(m);
    }

    method Notify(methodName: string)
      requires Valid()
      modifies this`sent
      ensures Valid() && sent == old(sent) + [Notice(methodName)]
    {
      SentAccounted(nextId, events, elicitations, sent, content, Notice(methodName));
      sent := sent + [Notice(methodName)];
    }

    method Dial(methodName: string, params: Json) returns (id: int)
      requires Valid()
      modifies this`nextId, this`sent
      ensures Valid() && id == old(nextId) && nextId == id + 1 && sent == old(sent) + [Call(id, methodName, params)]
    {
      id := nextId;
      SentAccounted(nextId, events, elicitations, sent, content, Call(id, methodName, params));
      nextId := nextId + 1;
      sent := sent + [Call(id, methodName, params)];
    }

    /** Send a request and take messages until its response. `patience` is the number of messages that can
        be taken before the deadline. */
    method Request(methodName: string, params: Json, patience: nat)
      returns (r: Result<Json, Failure>, ghost taken: seq<Json>)
      requires Valid()
      modifies this`nextId, this`events, this`elicitations, this`messages, this`sent
      ensures Valid() && nextId == old(nextId) + 1
      ensures Took(old(messages), |taken|, taken) && events == old(events) + taken
      ensures sent == old(sent) + [Call(old(nextId), methodName, params)] + AnswersDue(taken, content)
      ensures NoResponse(taken, old(nextId))
      ensures r.Ok? ==>
        && Get(r.value, "id") == Num(old(nextId)) && !Has(r.value, "method")
        && |taken| < |old(messages)| && old(messages)[|taken|] == Some(r.value)
        && messages == old(messages)[|taken| + 1..]
      ensures r == Err(Closed) ==>
        |taken| < |old(messages)| && old(messages)[|taken|] == None && messages == old(messages)[|taken| + 1..]
      ensures r == Err(TimedOut) ==> messages == old(messages)[|taken|..] && (|taken| == patience || messages == [])
    {
      var id := Dial(methodName, params);
      ghost var wrote := sent;
      taken := [];
      var n := 0;
      while n < patience && messages != []
        invariant n == |taken| <= patience && nextId == id + 1
        invariant Taking(old(messages), old(events), wrote, taken)
        invariant NoResponse(taken, id)
        decreases patience - n
      {
        var arrival := messages[0];
        if arrival.None? {
          messages := messages[1..];
          return Err(Closed), taken;
        }
        var m := arrival.value;
        if IsResponse(m, id) {
          messages := messages[1..];
          return Ok(m), taken;
        }
        NoResponseSnoc(taken, m, id);
        TakeNext(old(messages), old(events), wrote, taken);
        taken := taken + [m];
        n := n + 1;
      }
      return Err(TimedOut), taken;
    }

    /** The first buffered event that matches, from an index on. */
    method FindBuffered(after: nat, goal: Goal) returns (found: Option<Json>)
      ensures found == FirstMatch(From(events, after), goal)
    {
      var recent := From(events, after);
      assert recent[0..] == recent;
      for i := 0 to |recent|
        invariant FirstMatch(recent, goal) == FirstMatch(recent[i..], goal)
      {
        if Matches(recent[i], goal) {
          return Some(recent[i]);
        }
      }
      return None;
    }

    /** Look through the buffered events, then take messages until one ends the wait. */
    method WaitForNotification(goal: Goal, after: nat, patience: nat)
      returns (r: Result<Json, Failure>, ghost taken: seq<Json>)
      requires Valid()
      modifies this`events, this`elicitations, this`messages, this`sent
      ensures Valid() && Took(old(messages), |taken|, taken) && events == old(events) + taken
      ensures sent == old(sent) + AnswersDue(taken, content)
      ensures r == Err(Closed) ==>
        |taken| < |old(messages)| && old(messages)[|taken|] == None && messages == old(messages)[|taken| + 1..]
      ensures r != Err(Closed) ==> messages == old(messages)[|taken|..]
      ensures r == Err(TimedOut) ==> |taken| == patience || messages == []
      ensures r.Ok? ==> Awaited(old(events), Arriving(old(messages)), after, goal) == Some(r.value)
      ensures r.Err? ==> FirstEnding(taken, goal) == None && FirstMatch(From(old(events), after), goal) == None
      ensures r.Err? && |taken| < patience ==> Awaited(old(events), Arriving(old(messages)), after, goal) == None
    {
      var found := FindBuffered(after, goal);
      taken := [];
      if found.Some? {
        return Ok(found.value), taken;
      }
      var n := 0;
      while n < patience && messages != []
        invariant n == |taken| <= patience && Taking(old(messages), old(events), old(sent), taken)
        invariant FirstEnding(taken, goal) == None
        decreases patience - n
      {
        var arrival := messages[0];
        EndingAfter(old(messages), taken, goal);
        if arrival.None? {
          messages := messages[1..];
          return Err(Closed), taken;
        }
        var m := arrival.value;
        EndingSnoc(taken, m, goal);
        TakeNext(old(messages), old(events), old(sent), taken);
        n := n + 1;
        taken := taken + [m];
        if !IsServerRequest(m) && Matches(m, goal) {
          return Ok(m), taken;
        }
      }
      EndingAfter(old(messages), taken, goal);
      return Err(TimedOut), taken;
    }
  }

  /** A message is found exactly if it matches, or ends a wait, and nothing before it does. */
  lemma {:induction false} FirstMeaning(ms: seq<Json>, goal: Goal, m: Json)
    ensures FirstMatch(ms, goal) == Some(m) <==>
      exists i :: 0 <= i < |ms| && ms[i] == m && Matches(m, goal) && forall j :: 0 <= j < i ==> !Matches(ms[j], goal)
    ensures FirstEnding(ms, goal) == Some(m) <==>
      exists i :: 0 <= i < |ms| && ms[i] == m && Ends(m, goal) && forall j :: 0 <= j < i ==> !Ends(ms[j], goal)
  {
    if ms != [] {
      FirstMeaning(ms[1..], goal, m);
      assert forall i :: 1 <= i < |ms| ==> ms[1..][i - 1] == ms[i];
    }
  }

  lemma {:induction false} EndingSnoc(ms: seq<Json>, m: Json, goal: Goal)
    requires FirstEnding(ms, goal) == None
    ensures FirstEnding(ms + [m], goal) == if Ends(m, goal) then Some(m) else None
  {
    if ms != [] {
      EndingSnoc(ms[1..], m, goal);
      assert (ms + [m])[1..] == ms[1..] + [m];
    }
  }

  /** What comes after messages that do not end a wait. */
  lemma {:induction false} EndingAfter(queue: seq<Option<Json>>, taken: seq<Json>, goal: Goal)
    requires Took(queue, |taken|, taken) && FirstEnding(taken, goal) == None
    ensures FirstEnding(Arriving(queue), goal) == FirstEnding(Arriving(queue[|taken|..]), goal)
  {
    if taken == [] {
      assert queue[0..] == queue;
    } else {
      assert queue[0] == Some(taken[0]);
      EndingAfter(queue[1..], taken[1..], goal);
      assert queue[1..][|taken| - 1..] == queue[|taken|..];
      assert Arriving(queue)[1..] == Arriving(queue[1..]);
    }
  }

  // ----- waiting does not depend on timing -----

  lemma {:induction false} MatchAppend(a: seq<Json>, b: seq<Json>, goal: Goal)
    ensures FirstMatch(a + b, goal) == if FirstMatch(a, goal).Some? then FirstMatch(a, goal) else FirstMatch(b, goal)
  {
    if a == [] {
      assert a + b == b;
    } else {
      MatchAppend(a[1..], b, goal);
      assert (a + b)[1..] == a[1..] + b;
    }
  }

  lemma {:induction false} MatchOrEnding(ms: seq<Json>, goal: Goal)
    ensures FirstMatch(ms, goal) == FirstEnding(ms, goal) <==>
      FirstMatch(ms, goal).None? || !IsServerRequest(FirstMatch(ms, goal).value)
    ensures FirstEnding(ms, goal).Some? ==> !IsServerRequest(FirstEnding(ms, goal).value)
  {
    if ms != [] {
      MatchOrEnding(ms[1..], goal);
    }
  }

  /** Wherever the arrivals are split between buffer and queue, the wait finds the first match, exactly
      when that first match is not a server request. */
  lemma TimingIndependent(arrivals: seq<Json>, after: nat, goal: Goal)
    requires after <= |arrivals|
    ensures (forall split :: after <= split <= |arrivals| ==>
              Awaited(arrivals[..split], arrivals[split..], after, goal) == FirstMatch(arrivals[after..], goal))
       <==> FirstMatch(arrivals[after..], goal).None? || !IsServerRequest(FirstMatch(arrivals[after..], goal).value)
  {
    var all := arrivals[after..];
    if FirstMatch(all, goal).None? || !IsServerRequest(FirstMatch(all, goal).value) {
      forall split | after <= split <= |arrivals|
        ensures Awaited(arrivals[..split], arrivals[split..], after, goal) == FirstMatch(all, goal)
      {
        assert all == From(arrivals[..split], after) + arrivals[split..];
        MatchAppend(From(arrivals[..split], after), arrivals[split..], goal);
        MatchOrEnding(arrivals[split..], goal);
      }
    } else {
      assert From(arrivals[..after], after) == [];
      MatchOrEnding(all, goal);
      assert Awaited(arrivals[..after], arrivals[after..], after, goal) != FirstMatch(all, goal);
    }
  }

  /** For a method that the server only uses for notifications, nothing that arrives during an earlier
      request is missed: the wait finds what it would have found with all of it still to come. */
  lemma NothingMissed(events: seq<Json>, during: seq<Json>, later: seq<Json>, goal: Goal)
    requires forall m :: m in during + later && IsServerRequest(m) ==> Get(m, "method") != Str(goal.methodName)
    ensures Awaited(events + during, later, |events|, goal) == Awaited(events, during + later, |events|, goal)
         == FirstMatch(during + later, goal)
  {
    var arrivals, n := events + during + later, |events|;
    assert arrivals[n..] == during + later;
    if FirstMatch(during + later, goal).Some? {
      FoundIsMember(during + later, goal);
    }
    TimingIndependent(arrivals, n, goal);
    assert arrivals[..n] == events && arrivals[..n + |during|] == events + during && arrivals[n + |during|..] == later;
  }

  lemma {:induction false} FoundIsMember(ms: seq<Json>, goal: Goal)
    requires FirstMatch(ms, goal).Some?
    ensures FirstMatch(ms, goal).value in ms && Matches(FirstMatch(ms, goal).value, goal)
  {
    if !Matches(ms[0], goal) {
      FoundIsMember(ms[1..], goal);
    }
  }

  /** A server request with the awaited method ends a wait from the buffer, but not from the queue. */
  lemma ServerRequestDependsOnTiming(goal: Goal, id: int)
    requires goal.accepts(Object(map[]))
    ensures var m := Object(map["id" := Num(id), "method" := Str(goal.methodName), "params" := Object(map[])]);
      Awaited([m], [], 0, goal) == Some(m) && Awaited([], [m], 0, goal) == None
  {
    var m := Object(map["id" := Num(id), "method" := Str(goal.methodName), "params" := Object(map[])]);
    assert From([m], 0) == [m] && From([], 0) == [];
    assert [m][1..] == [] && FirstEnding([], goal) == None;
    assert IsServerRequest(m) && Matches(m, goal);
  }
}
