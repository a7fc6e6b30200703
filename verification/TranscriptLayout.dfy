/** The layout of a transcript, entry by entry: which message each entry stands for, in which order, and
    what a user entry shows of its message. */
module TranscriptLayout {
  import opened Wrappers
  import opened Keyed
  import opened Streaming
  import opened Transcript

  // ----- the parts of a user message -----

  predicate IsText(part: UserInput) { part.TextInput? }

  predicate IsImage(part: UserInput) { part.LocalImage? || part.Image? }

  function Location(part: UserInput): string
    requires IsImage(part)
  {
    if part.LocalImage? then part.path else part.url
  }

  /** `idx` lists the positions of the parts that are, or are not, texts or images, in order. */
  ghost predicate Lists(idx: seq<nat>, content: seq<UserInput>, wanted: UserInput -> bool) {
    && (forall m :: 0 <= m < |idx| ==> idx[m] < |content| && wanted(content[idx[m]]))
    && (forall m, n :: 0 <= m < n < |idx| ==> idx[m] < idx[n])
    && (forall i :: 0 <= i < |content| && wanted(content[i]) ==> i in idx)
  }

  /** Part `m` of the text stands at `starts[m]`, and a line feed before every part but the first. */
  predicate PartAt(text: string, parts: seq<string>, starts: seq<nat>, m: nat)
    requires |starts| == |parts|
  {
    && m < |parts| && starts[m] + |parts[m]| <= |text|
    && text[starts[m]..starts[m] + |parts[m]|] == parts[m]
    && (if m == 0 then starts[0] == 0
        else starts[m] == starts[m - 1] + |parts[m - 1]| + 1 && text[starts[m] - 1] == '\n')
  }

  /** The text is its parts, one after the other, with one line feed between them. */
  ghost predicate Cut(text: string, parts: seq<string>, starts: seq<nat>) {
    && |starts| == |parts| && (forall m :: 0 <= m < |parts| ==> PartAt(text, parts, starts, m))
    && |text| == if parts == [] then 0 else starts[|parts| - 1] + |parts[|parts| - 1]|
  }

  /** The text parts of a message in order, joined by line feeds. */
  ghost predicate ShowsText(content: seq<UserInput>, text: string) {
    exists idx: seq<nat>, parts: seq<string>, starts: seq<nat> ::
      Lists(idx, content, IsText) && TextsAt(idx, content, parts) && Cut(text, parts, starts)
  }

  /** The images of a message in order. */
  ghost predicate ShowsImages(content: seq<UserInput>, images: seq<string>) {
    exists idx: seq<nat> :: Lists(idx, content, IsImage) && ImagesAt(idx, content, images)
  }

  function Shifted(idx: seq<nat>, d: nat): (r: seq<nat>)
    ensures |r| == |idx| && forall m :: 0 <= m < |idx| ==> r[m] == idx[m] + d
  {
    seq(|idx|, m requires 0 <= m < |idx| => idx[m] + d)
  }

  /** The positions in a list with one more part. */
  lemma ListsMore(idx: seq<nat>, content: seq<UserInput>, wanted: UserInput -> bool)
    requires content != [] && Lists(idx, content[..|content| - 1], wanted)
    ensures var n := |content| - 1; Lists(if wanted(content[n]) then idx + [n] else idx, content, wanted)
  {
    var n := |content| - 1;
    var front, r := content[..n], if wanted(content[n]) then idx + [n] else idx;
    forall i | 0 <= i < |content| && wanted(content[i])
      ensures i in r
    {
      if i < n {
        assert front[i] == content[i];
      }
    }
  }

  /** `parts` are the texts at the positions `idx`. */
  ghost predicate TextsAt(idx: seq<nat>, content: seq<UserInput>, parts: seq<string>) {
    && |parts| == |idx|
    && forall m :: 0 <= m < |idx| ==> idx[m] < |content| && content[idx[m]] == TextInput(parts[m])
  }

  lemma TextsMore(idx: seq<nat>, content: seq<UserInput>, parts: seq<string>)
    requires content != [] && TextsAt(idx, content[..|content| - 1], parts)
    ensures TextsAt(idx, content, parts)
    ensures var n := |content| - 1; IsText(content[n]) ==> TextsAt(idx + [n], content, parts + [content[n].text])
  {
  }

  lemma {:induction false} TextPositions(content: seq<UserInput>) returns (idx: seq<nat>)
    ensures Lists(idx, content, IsText) && TextsAt(idx, content, Texts(content))
  {
    idx := [];
    if content != [] {
      var n := |content| - 1;
      var before := TextPositions(content[..n]);
      ListsMore(before, content, IsText);
      TextsMore(before, content, Texts(content[..n]));
      if IsText(content[n]) {
        idx := before + [n];
        assert Texts(content) == Texts(content[..n]) + [content[n].text];
      } else {
        idx := before;
        assert Texts(content) == Texts(content[..n]) + [];
      }
    }
  }

  /** `images` are the paths and addresses at the positions `idx`. */
  ghost predicate ImagesAt(idx: seq<nat>, content: seq<UserInput>, images: seq<string>) {
    && |images| == |idx|
    && forall m :: 0 <= m < |idx| ==>
         idx[m] < |content| && IsImage(content[idx[m]]) && images[m] == Location(content[idx[m]])
  }

  lemma ImagesMore(idx: seq<nat>, content: seq<UserInput>, images: seq<string>)
    requires content != [] && ImagesAt(idx, content[..|content| - 1], images)
    ensures ImagesAt(idx, content, images)
    ensures var n := |content| - 1;
      IsImage(content[n]) ==> ImagesAt(idx + [n], content, images + [Location(content[n])])
  {
  }

  lemma {:induction false} ImagePositions(content: seq<UserInput>) returns (idx: seq<nat>)
    ensures Lists(idx, content, IsImage) && ImagesAt(idx, content, ImagesOf(content))
  {
    idx := [];
    if content != [] {
      var n := |content| - 1;
      var before := ImagePositions(content[..n]);
      ListsMore(before, content, IsImage);
      ImagesMore(before, content, ImagesOf(content[..n]));
      if IsImage(content[n]) {
        idx := before + [n];
        assert ImagesOf(content) == ImagesOf(content[..n]) + [Location(content[n])];
      } else {
        idx := before;
        assert ImagesOf(content) == ImagesOf(content[..n]) + [];
      }
    }
  }

  /** One more part in front moves the others behind it and its line feed. */
  lemma CutCons(first: string, text: string, parts: seq<string>, starts: seq<nat>, m: nat)
    requires parts != [] && Cut(text, parts, starts) && m <= |parts|
    ensures PartAt(first + "\n" + text, [first] + parts, [0] + Shifted(starts, |first| + 1), m)
  {
    var longer, all, shifted := first + "\n" + text, [first] + parts, [0] + Shifted(starts, |first| + 1);
    assert longer[..|first|] == first && longer[|first|] == '\n' && longer[|first| + 1..] == text;
    if m > 0 {
      assert PartAt(text, parts, starts, m - 1);
      assert all[m] == parts[m - 1] && shifted[m] == starts[m - 1] + |first| + 1;
      assert longer[shifted[m]..shifted[m] + |all[m]|] == text[starts[m - 1]..starts[m - 1] + |parts[m - 1]|];
    }
  }

  lemma {:induction false} JoinedCut(parts: seq<string>) returns (starts: seq<nat>)
    ensures Cut(JoinLines(parts), parts, starts)
  {
    if parts == [] {
      starts := [];
    } else if |parts| == 1 {
      starts := [0];
      assert PartAt(parts[0], parts, starts, 0);
    } else {
      var rest := JoinedCut(parts[1..]);
      starts := [0] + Shifted(rest, |parts[0]| + 1);
      assert [parts[0]] + parts[1..] == parts;
      forall m | 0 <= m < |parts|
        ensures PartAt(JoinLines(parts), parts, starts, m)
      {
        CutCons(parts[0], JoinLines(parts[1..]), parts[1..], rest, m);
      }
    }
  }

  lemma ContentShown(content: seq<UserInput>)
    ensures ShowsText(content, TextOf(content)) && ShowsImages(content, ImagesOf(content))
  {
    var texts := TextPositions(content);
    var starts := JoinedCut(Texts(content));
    var images := ImagePositions(content);
  }

  // ----- the entries of one turn -----

  /** No agent message comes after item `k`. */
  predicate NoneAfter(turn: Turn, k: nat) {
    forall i :: k < i < |turn.items| ==> !turn.items[i].AgentMessage?
  }

  /** The entry of item `k`: a user message shows its content, and is marked in a goal turn if it is the
      first one; an agent message shows its text and the activities since the one before it, and the last
      one also those that follow it. */
  ghost predicate Describes(v: EntryView, turn: Turn, k: nat, goals: set<Id>, render: Render)
    requires k < |turn.items|
  {
    match turn.items[k]
    case UserMessage(id, content) =>
      && v.UserView? && v.id == id && ShowsText(content, v.text) && ShowsImages(content, v.images)
      && (v.goal <==> turn.id in goals && forall i :: 0 <= i < k ==> !turn.items[i].UserMessage?)
    case AgentMessage(id, text, _) =>
      && v.AssistantView? && v.id == id && v.turnId == turn.id && v.text == text && Reports(v, turn)
      && (v.active <==> turn.status in {None, Some(InProgress)} && NoneAfter(turn, k))
      && v.activities == RunBefore(turn.items, k, render)
                         + if NoneAfter(turn, k) then RunBefore(turn.items, |turn.items|, render) else []
    case WorkItem(_, _) => false
  }

  /** The state of its turn that every reply reports. */
  predicate Reports(v: EntryView, turn: Turn)
    requires v.AssistantView?
  {
    v.startedAtMs == turn.startedAtMs && v.status == turn.status && v.durationMs == turn.durationMs
  }

  ghost predicate IsSummary(v: EntryView, turn: Turn, render: Render) {
    && v.AssistantView? && v.id == turn.id + "-summary" && v.turnId == turn.id && v.text == "" && Reports(v, turn)
    && (v.active <==> turn.status in {None, Some(InProgress)})
    && v.activities == RunBefore(turn.items, |turn.items|, render)
  }

  predicate Answered(turn: Turn) {
    exists k :: 0 <= k < |turn.items| && turn.items[k].AgentMessage?
  }

  /** The entry stands for place `k` of a turn: a message, or the summary after the last item of a turn
      without agent messages. */
  ghost predicate StandsFor(v: EntryView, turn: Turn, k: nat, goals: set<Id>, render: Render) {
    if k < |turn.items| then Describes(v, turn, k, goals, render)
    else k == |turn.items| && !Answered(turn) && IsSummary(v, turn, render)
  }

  /** A place of a turn that has an entry. */
  predicate HasEntry(turn: Turn, k: nat) {
    if k < |turn.items| then !turn.items[k].WorkItem? else k == |turn.items| && !Answered(turn)
  }

  /** The entries stand for the places below `n`, each once and in order. */
  ghost predicate Layout(es: seq<EntryView>, turn: Turn, n: nat, goals: set<Id>, render: Render, pos: seq<nat>) {
    && |pos| == |es| && (forall i :: 0 <= i < |es| ==> StandsFor(es[i], turn, pos[i], goals, render))
    && Increasing(pos, n) && (forall k :: 0 <= k < n && HasEntry(turn, k) ==> k in pos)
  }

  predicate Increasing(pos: seq<nat>, n: nat) {
    && (forall i :: 0 <= i < |pos| ==> pos[i] < n)
    && (forall i, j :: 0 <= i < j < |pos| ==> pos[i] < pos[j])
  }

  lemma IncreasingMore(pos: seq<nat>, n: nat)
    requires Increasing(pos, n)
    ensures Increasing(pos + [n], n + 1)
  {
  }

  lemma EntryDescribes(turn: Turn, k: nat, render: Render, goals: set<Id>)
    requires k < |turn.items| && !turn.items[k].WorkItem?
    ensures var (n, runs) := (|turn.items|, Runs(turn.items, render));
      var es := EntryFor(turn.items[k], turn, runs[k], runs[n], k == PrevAgent(turn.items, n), IsGoal(turn, k, goals));
      |es| == 1 && Describes(es[0], turn, k, goals, render)
  {
    RunsMeaning(turn.items, render, k);
    RunsMeaning(turn.items, render, |turn.items|);
    if turn.items[k].UserMessage? {
      ContentShown(turn.items[k].content);
    }
  }

  lemma LayoutMore(es: seq<EntryView>, v: EntryView, turn: Turn, n: nat, goals: set<Id>, render: Render, pos: seq<nat>)
    requires Layout(es, turn, n, goals, render, pos) && StandsFor(v, turn, n, goals, render)
    ensures Layout(es + [v], turn, n + 1, goals, render, pos + [n])
  {
    var more, places := es + [v], pos + [n];
    IncreasingMore(pos, n);
    forall i | 0 <= i < |more|
      ensures StandsFor(more[i], turn, places[i], goals, render)
    {
      if i < |es| {
        assert more[i] == es[i] && places[i] == pos[i];
      } else {
        assert more[i] == v && places[i] == n;
      }
    }
    forall k | 0 <= k < n + 1 && HasEntry(turn, k)
      ensures k in places
    {
      assert k < n ==> k in pos;
    }
  }

  lemma {:induction false} EntriesLaidOut(turn: Turn, n: nat, render: Render, goals: set<Id>) returns (pos: seq<nat>)
    requires n <= |turn.items|
    ensures Layout(EntriesUpTo(turn, n, Runs(turn.items, render), PrevAgent(turn.items, |turn.items|), goals),
                   turn, n, goals, render, pos)
  {
    pos := [];
    if n > 0 {
      var k, runs, last := n - 1, Runs(turn.items, render), PrevAgent(turn.items, |turn.items|);
      pos := EntriesLaidOut(turn, k, render, goals);
      var es := EntriesUpTo(turn, k, runs, last, goals);
      var here := EntryFor(turn.items[k], turn, runs[k], runs[|turn.items|], k == last, IsGoal(turn, k, goals));
      if turn.items[k].WorkItem? {
        assert es + here == es;
      } else {
        EntryDescribes(turn, k, render, goals);
        LayoutMore(es, here[0], turn, k, goals, render, pos);
        pos := pos + [k];
        assert here == [here[0]];
      }
    }
  }

  /** A turn shows its messages in order, each once, and a summary at the end if none is an agent message. */
  lemma TurnLaidOut(turn: Turn, render: Render, goals: set<Id>) returns (pos: seq<nat>)
    ensures Layout(TurnEntries(turn, render, goals), turn, |turn.items| + 1, goals, render, pos)
  {
    var n := |turn.items|;
    var runs, last := Runs(turn.items, render), PrevAgent(turn.items, n);
    pos := EntriesLaidOut(turn, n, render, goals);
    var es := EntriesUpTo(turn, n, runs, last, goals);
    if last >= 0 {
      assert es + [] == es && Answered(turn);
    } else {
      RunsMeaning(turn.items, render, n);
      LayoutMore(es, TurnEntries(turn, render, goals)[|es|], turn, n, goals, render, pos);
      pos := pos + [n];
    }
  }

  // ----- the whole transcript -----

  /** Places in the order of turns, and within a turn in the order of items. */
  predicate Before(a: (nat, nat), b: (nat, nat)) { a.0 < b.0 || (a.0 == b.0 && a.1 < b.1) }

  ghost predicate StandsIn(v: EntryView, turns: seq<Turn>, place: (nat, nat), goals: set<Id>, render: Render) {
    place.0 < |turns| && StandsFor(v, turns[place.0], place.1, goals, render)
  }

  /** The entries of a transcript stand for the messages and summaries of its turns, each once and in order. */
  ghost predicate Laid(es: seq<EntryView>, turns: seq<Turn>, goals: set<Id>, render: Render, places: seq<(nat, nat)>) {
    && |places| == |es|
    && (forall i :: 0 <= i < |es| ==> StandsIn(es[i], turns, places[i], goals, render))
    && (forall i, j :: 0 <= i < j < |places| ==> Before(places[i], places[j]))
    && (forall t, k :: 0 <= t < |turns| && 0 <= k && HasEntry(turns[t], k) ==> (t, k) in places)
  }

  function InTurn(t: nat, pos: seq<nat>): (r: seq<(nat, nat)>)
    ensures |r| == |pos| && forall i :: 0 <= i < |pos| ==> r[i] == (t, pos[i])
  {
    seq(|pos|, i requires 0 <= i < |pos| => (t, pos[i]))
  }

  lemma LaidMore(es: seq<EntryView>, more: seq<EntryView>, turns: seq<Turn>, turn: Turn, goals: set<Id>,
                 render: Render, places: seq<(nat, nat)>, pos: seq<nat>)
    requires Laid(es, turns, goals, render, places) && Layout(more, turn, |turn.items| + 1, goals, render, pos)
    ensures Laid(es + more, turns + [turn], goals, render, places + InTurn(|turns|, pos))
  {
    var all, r, n := turns + [turn], places + InTurn(|turns|, pos), |turns|;
    forall t, k | 0 <= t < |all| && 0 <= k && HasEntry(all[t], k)
      ensures (t, k) in r
    {
      if t < n {
        assert all[t] == turns[t];
      } else {
        var i :| 0 <= i < |pos| && pos[i] == k;
        assert InTurn(n, pos)[i] == (t, k);
      }
    }
    forall i | 0 <= i < |es + more|
      ensures StandsIn((es + more)[i], all, r[i], goals, render)
    {
      if i < |es| {
        assert StandsIn(es[i], turns, places[i], goals, render);
      }
    }
    forall i, j | 0 <= i < j < |r|
      ensures Before(r[i], r[j])
    {
      if i < |places| <= j {
        assert StandsIn(es[i], turns, places[i], goals, render);
      }
    }
  }

  /** The transcript lists the messages of all turns in order, each once, with a summary after every turn
      that has no agent message. A user entry shows the texts and images of its message, and only the first
      one of a goal turn is marked. */
  lemma {:induction false} TranscriptLaidOut(turns: seq<Turn>, render: Render, goals: set<Id>)
    returns (places: seq<(nat, nat)>)
    ensures Laid(TranscriptOf(turns, render, goals), turns, goals, render, places)
  {
    places := [];
    if turns != [] {
      var n := |turns| - 1;
      var before := TranscriptLaidOut(turns[..n], render, goals);
      var pos := TurnLaidOut(turns[n], render, goals);
      LaidMore(TranscriptOf(turns[..n], render, goals), TurnEntries(turns[n], render, goals), turns[..n], turns[n],
               goals, render, before, pos);
      assert turns[..n] + [turns[n]] == turns;
      places := before + InTurn(n, pos);
    }
  }
}
