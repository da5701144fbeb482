/**
 One streaming turn: the producer loop reads model deltas, splits them and queues the chunks; the speech worker
 takes chunks, merges what is already queued, synthesizes and sends audio. They interleave at every await, so
 the turn is a state machine whose steps are the stretches between awaits, in any order.
 */
module SpeechPipeline {
  import opened Prelude
  import opened Text
  import opened Chunker

  /** A queue slot: a chunk, or the end-of-turn sentinel. */
  type Item = Option<string>

  // ---- Merging ----

  const PAUSES: set<char> :=
    {'\U{3002}', '\U{FF01}', '\U{FF1F}', '!', '?', '\U{FF0C}', ',', '\U{FF1B}', ';', '\U{FF1A}', ':'}

  const FULL_STOP: string := "\U{3002}"

  datatype Gathered = Gathered(parts: seq<string>, rest: seq<Item>, sawEnd: bool)

  /** Take further queued chunks while the merged length is under the target; the sentinel ends the merge. */
  function Gather(parts: seq<string>, total: nat, queue: seq<Item>, target: nat): (g: Gathered)
    ensures parts <= g.parts
    decreases |queue|
  {
    if total >= target || queue == [] then Gathered(parts, queue, false)
    else match queue[0]
      case None => Gathered(parts, queue[1..], true)
      case Some(chunk) => Gather(parts + [chunk], total + |chunk|, queue[1..], target)
  }

  /** The mark between two neighbouring chunks: a full stop where neither touching character is a pause. */
  function Mark(left: string, right: string): string
    requires left != "" && right != ""
  {
    if left[|left| - 1] !in PAUSES && right[0] !in PAUSES then FULL_STOP else ""
  }

  predicate AllNonEmpty(parts: seq<string>) { forall i | 0 <= i < |parts| :: parts[i] != "" }

  /** Neighbouring chunks joined by their marks. */
  function Woven(parts: seq<string>): string
    requires AllNonEmpty(parts)
  {
    if parts == [] then ""
    else if |parts| == 1 then parts[0]
    else parts[0] + Mark(parts[0], parts[1]) + Woven(parts[1..])
  }

  function NonBlank(parts: seq<string>): (r: seq<string>)
    ensures AllNonEmpty(r)
  {
    if parts == [] then []
    else
      var p := Strip(parts[0]);
      (if p == "" then [] else [p]) + NonBlank(parts[1..])
  }

  lemma {:induction false} WovenSnoc(parts: seq<string>, p: string)
    requires parts != [] && p != "" && AllNonEmpty(parts)
    ensures AllNonEmpty(parts + [p])
    ensures Woven(parts + [p]) == Woven(parts) + Mark(parts[|parts| - 1], p) + p
  {
    if |parts| > 1 {
      var more := parts + [p];
      assert more[1..] == parts[1..] + [p] && more[0] == parts[0] && more[1] == parts[1];
      WovenSnoc(parts[1..], p);
    } else {
      assert (parts + [p])[1..] == [p];
    }
  }

  lemma {:induction false} NonBlankSnoc(parts: seq<string>, p: string)
    ensures NonBlank(parts + [p]) == NonBlank(parts) + (if Strip(p) == "" then [] else [Strip(p)])
  {
    hide Strip;
    if parts == [] {
      assert (parts + [p])[1..] == [];
    } else {
      assert (parts + [p])[1..] == parts[1..] + [p];
      NonBlankSnoc(parts[1..], p);
    }
  }

  /** The chunks the splitter emits are taken as they are. */
  lemma {:induction false} ChunksAreNonBlank(parts: seq<string>)
    requires Chunks(parts)
    ensures NonBlank(parts) == parts
  {
    hide Strip;
    if parts != [] {
      StripTrimmed(parts[0]);
      ChunksAreNonBlank(parts[1..]);
      assert parts == [parts[0]] + parts[1..];
    }
  }

  /** What is said for a group of chunks. */
  function Utterance(parts: seq<string>): string { Woven(NonBlank(parts)) }

  /**
   A text made of some parts, the i-th one at position `at[i]`. Between two parts stands nothing if one of the two
   characters that meet is a stop, comma, semicolon, colon, exclamation or question mark, and otherwise a full stop.
   */
  predicate Joins(text: string, parts: seq<string>, at: seq<nat>)
    requires AllNonEmpty(parts)
  {
    && |at| == |parts|
    && (forall i | 0 <= i < |parts| :: PartAt(text, parts[i], at[i]))
    && (parts == [] ==> text == "")
    && (parts != [] ==> at[0] == 0 && at[|at| - 1] + |parts[|at| - 1]| == |text|)
    && (forall i | 0 <= i < |parts| - 1 :: GapAt(text, parts[i], at[i], parts[i + 1], at[i + 1]))
  }

  predicate PartAt(text: string, part: string, at: nat) {
    at + |part| <= |text| && text[at..at + |part|] == part
  }

  predicate GapAt(text: string, left: string, at: nat, right: string, next: nat)
    requires left != "" && right != ""
  {
    at + |left| <= next <= |text| && text[at + |left|..next] == Between(left[|left| - 1], right[0])
  }

  function Between(last: char, first: char): string {
    var marks := "\U{3002}\U{FF01}\U{FF1F}!?\U{FF0C},\U{FF1B};\U{FF1A}:";
    if last in marks || first in marks then "" else "\U{3002}"
  }

  lemma MarkBetween(left: string, right: string)
    requires left != "" && right != ""
    ensures Mark(left, right) == Between(left[|left| - 1], right[0])
  {}

  lemma ShiftPart(prefix: string, text: string, part: string, at: nat)
    requires PartAt(text, part, at)
    ensures PartAt(prefix + text, part, |prefix| + at)
  {
    assert (prefix + text)[|prefix| + at..|prefix| + at + |part|] == text[at..at + |part|];
  }

  lemma ShiftGap(prefix: string, text: string, left: string, at: nat, right: string, next: nat)
    requires left != "" && right != "" && GapAt(text, left, at, right, next)
    ensures GapAt(prefix + text, left, |prefix| + at, right, |prefix| + next)
  {
    hide Between;
    assert (prefix + text)[|prefix| + at + |left|..|prefix| + next] == text[at + |left|..next];
  }

  lemma HeadJoins(p: string, mark: string, text: string, first: string)
    requires p != "" && first != "" && mark == Between(p[|p| - 1], first[0])
    ensures PartAt(p + mark + text, p, 0) && GapAt(p + mark + text, p, 0, first, |p| + |mark|)
  {
    hide Between;
    var whole := p + mark + text;
    assert whole[0..|p|] == p && whole[|p|..|p| + |mark|] == mark;
  }

  lemma JoinsCons(p: string, mark: string, text: string, parts: seq<string>, at: seq<nat>) returns (all: seq<nat>)
    requires p != "" && parts != [] && AllNonEmpty(parts) && Joins(text, parts, at)
    requires mark == Between(p[|p| - 1], parts[0][0])
    ensures AllNonEmpty([p] + parts) && Joins(p + mark + text, [p] + parts, all)
  {
    hide Between, PartAt, GapAt;
    var prefix := p + mark;
    var whole, more := prefix + text, [p] + parts;
    all := [0] + seq(|at|, i requires 0 <= i < |at| => |prefix| + at[i]);
    HeadJoins(p, mark, text, parts[0]);
    forall i | 0 <= i < |more|
      ensures PartAt(whole, more[i], all[i])
    {
      if i > 0 {
        ShiftPart(prefix, text, parts[i - 1], at[i - 1]);
      }
    }
    assert AllNonEmpty(more);
    forall i | 0 <= i < |more| - 1
      ensures GapAt(whole, more[i], all[i], more[i + 1], all[i + 1])
    {
      if i > 0 {
        ShiftGap(prefix, text, parts[i - 1], at[i - 1], parts[i], at[i]);
      }
    }
  }

  /** What is said is the parts, in order, with the marks between them that the text calls for and nothing else. */
  lemma {:induction false} WovenJoins(parts: seq<string>) returns (at: seq<nat>)
    requires AllNonEmpty(parts)
    ensures Joins(Woven(parts), parts, at)
  {
    if parts == [] {
      at := [];
    } else if |parts| == 1 {
      at := [0];
    } else {
      var rest := WovenJoins(parts[1..]);
      MarkBetween(parts[0], parts[1]);
      at := JoinsCons(parts[0], Mark(parts[0], parts[1]), Woven(parts[1..]), parts[1..], rest);
      assert [parts[0]] + parts[1..] == parts;
    }
  }

  /** Two neighbouring parts in the text. */
  lemma JoinedNeighbours(text: string, parts: seq<string>, at: seq<nat>, i: nat) returns (pre: string, post: string)
    requires AllNonEmpty(parts) && Joins(text, parts, at) && i + 1 < |parts|
    ensures text == pre + parts[i] + Between(parts[i][|parts[i]| - 1], parts[i + 1][0]) + parts[i + 1] + post
  {
    hide Between;
    assert GapAt(text, parts[i], at[i], parts[i + 1], at[i + 1]);
    var a, b, c, d := at[i], at[i] + |parts[i]|, at[i + 1], at[i + 1] + |parts[i + 1]|;
    pre, post := text[..a], text[d..];
    Quarters(text, a, b, c, d);
  }

  lemma Quarters(text: string, a: nat, b: nat, c: nat, d: nat)
    requires a <= b <= c <= d <= |text|
    ensures text == text[..a] + text[a..b] + text[b..c] + text[c..d] + text[d..]
  {}

  /** The text with everything between the parts taken out. */
  function WithoutGaps(text: string, parts: seq<string>, at: seq<nat>): string
    requires |at| == |parts| && forall i | 0 <= i < |parts| :: PartAt(text, parts[i], at[i])
  {
    if parts == [] then ""
    else
      assert PartAt(text, parts[0], at[0]);
      text[at[0]..at[0] + |parts[0]|] + WithoutGaps(text, parts[1..], at[1..])
  }

  /** Taking the inserted stops out again gives the parts, joined. */
  lemma {:induction false} GapsAreAllThatIsAdded(text: string, parts: seq<string>, at: seq<nat>)
    requires |at| == |parts| && forall i | 0 <= i < |parts| :: PartAt(text, parts[i], at[i])
    ensures WithoutGaps(text, parts, at) == Concat(parts)
  {
    if parts != [] {
      GapsAreAllThatIsAdded(text, parts[1..], at[1..]);
    }
  }

  /** The merge loop: what to say for the parts taken from the queue. */
  method MergeParts(parts: seq<string>) returns (sentence: string)
    ensures sentence == Utterance(parts)
    ensures exists at :: Joins(sentence, NonBlank(parts), at)
  {
    hide Strip, Woven, NonBlank;
    var merged: seq<string> := [];
    sentence := "";
    assert NonBlank([]) == [] && Woven([]) == "" by { NothingWoven(); }
    for i := 0 to |parts|
      invariant merged == NonBlank(parts[..i]) && sentence == Woven(merged)
    {
      var p := Strip(parts[i]);
      assert parts[..i + 1] == parts[..i] + [parts[i]];
      NonBlankSnoc(parts[..i], parts[i]);
      if p != "" {
        if merged == [] {
          sentence := p;
          OneWoven(p);
          assert merged + [p] == [p];
        } else {
          WovenSnoc(merged, p);
          assert sentence + "" == sentence;
          if merged[|merged| - 1][|merged[|merged| - 1]| - 1] !in PAUSES && p[0] !in PAUSES {
            sentence := sentence + FULL_STOP;
          }
          sentence := sentence + p;
        }
        merged := merged + [p];
      }
    }
    assert parts[..|parts|] == parts;
    ghost var at := WovenJoins(merged);
  }

  lemma NothingWoven()
    ensures NonBlank([]) == [] && Woven([]) == ""
  {}

  lemma OneWoven(p: string)
    requires p != ""
    ensures Woven([p]) == p
  {}

  /** Take the first chunk's successors from the queue: the get_nowait loop. */
  method TakeMore(item: string, queue: seq<Item>, target: nat)
    returns (parts: seq<string>, rest: seq<Item>, sawEnd: bool)
    ensures Gathered(parts, rest, sawEnd) == Gather([item], |item|, queue, target)
  {
    parts, rest, sawEnd := [item], queue, false;
    var total: nat := |item|;
    while total < target
      invariant sawEnd == false && Gather(parts, total, rest, target) == Gather([item], |item|, queue, target)
      decreases |rest|
    {
      if rest == [] {
        break;
      }
      var next := rest[0];
      rest := rest[1..];
      if next.None? {
        sawEnd := true;
        return;
      }
      parts := parts + [next.value];
      total := total + |next.value|;
    }
  }

  // ---- The turn ----

  datatype Phase = Streaming | Flushed | Waiting | Finished

  datatype Worker =
    | Idle
    | Synthesizing(sentence: string, sawEnd: bool)
    | Sending(sentence: string, sawEnd: bool)
    | Returned

  /** What the client is sent. */
  datatype Event = Partial(text: string) | Filler | Speaking | Audio(text: string)

  datatype Producer = Producer(
    todo: seq<string>,             // deltas the model has yet to yield
    heard: seq<string>,            // deltas already read
    chunker: State,
    pending: seq<string>,          // chunks to announce and queue
    announced: bool,               // the first pending chunk has been sent as a partial
    fillerDue: bool,               // a filler is being fetched
    fillerSent: bool,
    phase: Phase)

  datatype Speaker = Speaker(
    worker: Worker,
    firstAudio: bool,              // sent_first_audio
    firstChunkDone: bool,
    groups: seq<seq<string>>,      // the chunks of each take, in order
    tried: seq<string>,            // the texts handed to synthesis, in order
    worked: seq<bool>)             // how each finished synthesis went

  datatype Turn = Turn(fast: bool, p: Producer, s: Speaker, queue: seq<Item>, sent: seq<Event>)

  datatype Action =
    | Read | StartFiller | SendFiller | Announce | Put | Flush | End | Finish   // the producer
    | Take | Synthesized(ok: bool) | Send                                      // the worker

  function Start(fast: bool, deltas: seq<string>): Turn {
    Turn(fast,
         Producer(deltas, [], State("", if fast then 20 else 24, false), [], false, false, false, Streaming),
         Speaker(Idle, false, false, [], [], []),
         [], [])
  }

  function MergeTarget(t: Turn): nat { if t.fast && !t.s.firstChunkDone then 20 else 90 }

  function AfterSpeech(sawEnd: bool): Worker { if sawEnd then Returned else Idle }

  predicate ProducerFree(t: Turn) { t.p.pending == [] && !t.p.fillerDue }

  predicate Enabled(t: Turn, a: Action) {
    match a
    case Read => t.p.phase.Streaming? && ProducerFree(t) && t.p.todo != []
    case StartFiller => t.p.phase.Streaming? && ProducerFree(t) && !t.s.firstAudio && !t.p.fillerSent
    case SendFiller => t.p.fillerDue
    case Announce => t.p.pending != [] && !t.p.announced
    case Put => t.p.pending != [] && t.p.announced
    case Flush => t.p.phase.Streaming? && ProducerFree(t) && t.p.todo == []
    case End => t.p.phase.Flushed? && t.p.pending == []
    case Finish => t.p.phase.Waiting? && t.s.worker.Returned?
    case Take => t.s.worker.Idle? && t.queue != []
    case Synthesized(_) => t.s.worker.Synthesizing?
    case Send => t.s.worker.Sending?
  }

  /** Take the next item and whatever is merged with it; the sentinel makes the worker return. */
  function TakeNext(s: Speaker, queue: seq<Item>, target: nat): (Speaker, seq<Item>)
    requires queue != []
  {
    if queue[0].None? then (s.(worker := Returned), queue[1..])
    else
      var g := Gather([queue[0].value], |queue[0].value|, queue[1..], target);
      var sentence := Utterance(g.parts);
      (s.(groups := s.groups + [g.parts],
          worker := if sentence == "" then AfterSpeech(g.sawEnd) else Synthesizing(sentence, g.sawEnd),
          tried := s.tried + if sentence == "" then [] else [sentence]),
       g.rest)
  }

  /** The producer reads a delta, or flushes the tail when the model is done. */
  function ReadNext(p: Producer): Producer {
    if p.todo == [] then
      var tail := Strip(p.chunker.buf);
      p.(phase := Flushed, chunker := p.chunker.(buf := ""), pending := if tail == "" then [] else [tail])
    else
      var fed := Feed(p.chunker, p.todo[0]);
      p.(todo := p.todo[1..], heard := p.heard + [p.todo[0]], chunker := fed.state, pending := fed.out)
  }

  /** What a step sends to the client. */
  function Sends(t: Turn, a: Action): seq<Event>
    requires Enabled(t, a)
  {
    match a
    case SendFiller => [Filler]
    case Announce => [Partial(t.p.pending[0])]
    case Finish => if t.s.firstAudio then [] else [Speaking]
    case Synthesized(ok) => if ok && !t.s.firstAudio then [Speaking] else []
    case Send => [Audio(t.s.worker.sentence)]
    case _ => []
  }

  function Act(t: Turn, a: Action): Turn
    requires Enabled(t, a)
  {
    var sent := t.sent + Sends(t, a);
    match a
    case Read => t.(p := ReadNext(t.p))
    case Flush => t.(p := ReadNext(t.p))
    case StartFiller => t.(p := t.p.(fillerDue := true))
    case SendFiller => t.(p := t.p.(fillerDue := false, fillerSent := true), sent := sent)
    case Announce => t.(p := t.p.(announced := true), sent := sent)
    case Put =>
      t.(p := t.p.(announced := false, pending := t.p.pending[1..]), queue := t.queue + [Some(t.p.pending[0])])
    case End => t.(p := t.p.(phase := Waiting), queue := t.queue + [None])
    case Finish => t.(p := t.p.(phase := Finished), sent := sent)
    case Take =>
      var (s, queue) := TakeNext(t.s, t.queue, MergeTarget(t));
      t.(s := s, queue := queue)
    case Synthesized(ok) =>
      if !ok then t.(s := t.s.(worker := AfterSpeech(t.s.worker.sawEnd), worked := t.s.worked + [false]))
      else t.(s := t.s.(worker := Sending(t.s.worker.sentence, t.s.worker.sawEnd), worked := t.s.worked + [true],
                        firstChunkDone := true, firstAudio := true),
              sent := sent)
    case Send => t.(s := t.s.(worker := AfterSpeech(t.s.worker.sawEnd)), sent := sent)
  }

  /** A step that is not enabled is no step. */
  function Step(t: Turn, a: Action): Turn {
    if Enabled(t, a) then Act(t, a) else t
  }

  function Run(t: Turn, actions: seq<Action>): Turn {
    if actions == [] then t
    else Step(Run(t, actions[..|actions| - 1]), actions[|actions| - 1])
  }

  // ---- What every interleaving keeps ----

  function Flatten(groups: seq<seq<string>>): seq<string> {
    if groups == [] then [] else groups[0] + Flatten(groups[1..])
  }

  lemma {:induction false} FlattenSnoc(groups: seq<seq<string>>, g: seq<string>)
    ensures Flatten(groups + [g]) == Flatten(groups) + g
  {
    if groups == [] {
      assert (groups + [g])[1..] == [];
    } else {
      assert (groups + [g])[1..] == groups[1..] + [g];
      FlattenSnoc(groups[1..], g);
    }
  }

  /** The chunks waiting in the queue. */
  function Waiters(queue: seq<Item>): seq<string> {
    if queue == [] then []
    else (if queue[0].None? then [] else [queue[0].value]) + Waiters(queue[1..])
  }

  lemma SeqAssoc(a: seq<string>, b: seq<string>, c: seq<string>)
    ensures (a + b) + c == a + (b + c)
  {}

  lemma {:induction false} WaitersSnoc(queue: seq<Item>, item: Item)
    ensures Waiters(queue + [item]) == Waiters(queue) + (if item.None? then [] else [item.value])
  {
    var more := queue + [item];
    if queue == [] {
      assert more[1..] == [] && Waiters(more[1..]) == [];
    } else {
      assert more[0] == queue[0] && more[1..] == queue[1..] + [item];
      WaitersSnoc(queue[1..], item);
      var head := if queue[0].None? then [] else [queue[0].value];
      SeqAssoc(head, Waiters(queue[1..]), if item.None? then [] else [item.value]);
    }
  }

  /** The sentinel is nowhere but possibly last. */
  predicate EndsAtMostOnce(queue: seq<Item>) {
    forall i | 0 <= i < |queue| - 1 :: queue[i].Some?
  }

  predicate HasEnd(queue: seq<Item>) {
    queue != [] && queue[|queue| - 1].None?
  }

  /** A merge takes chunks from the front of the queue in order. */
  lemma {:induction false} GatherTakes(parts: seq<string>, total: nat, queue: seq<Item>, target: nat)
    requires EndsAtMostOnce(queue)
    ensures var g := Gather(parts, total, queue, target); g.parts + Waiters(g.rest) == parts + Waiters(queue)
    decreases |queue|
  {
    if total < target && queue != [] {
      if queue[0].Some? {
        var chunk := queue[0].value;
        GatherTakes(parts + [chunk], total + |chunk|, queue[1..], target);
        assert (parts + [chunk]) + Waiters(queue[1..]) == parts + ([chunk] + Waiters(queue[1..]));
      } else {
        assert queue == [None];
        assert Waiters(queue) == [] + Waiters(queue[1..]);
      }
    }
  }

  /** A merge sees the end only when it consumes it, as the last thing in the queue. */
  lemma {:induction false} GatherEnds(parts: seq<string>, total: nat, queue: seq<Item>, target: nat)
    requires EndsAtMostOnce(queue)
    ensures var g := Gather(parts, total, queue, target);
      && EndsAtMostOnce(g.rest)
      && if g.sawEnd then g.rest == [] && HasEnd(queue) else HasEnd(g.rest) == HasEnd(queue)
    decreases |queue|
  {
    if total < target && queue != [] && queue[0].Some? {
      assert queue[1..] != [] ==> queue[1..][|queue| - 2] == queue[|queue| - 1];
      GatherEnds(parts + [queue[0].value], total + |queue[0].value|, queue[1..], target);
    }
  }

  /** A merge takes a further chunk only while it is short of the target, and stops short only for want of chunks. */
  lemma {:induction false} GatherStops(parts: seq<string>, total: nat, queue: seq<Item>, target: nat)
    requires parts != [] && |Concat(parts)| == total && |Concat(parts[..|parts| - 1])| < target
    ensures var g := Gather(parts, total, queue, target);
      && g.parts != [] && |Concat(g.parts[..|g.parts| - 1])| < target
      && (|Concat(g.parts)| >= target || g.sawEnd || g.rest == [])
    decreases |queue|
  {
    hide Concat;
    if total < target && queue != [] && queue[0].Some? {
      var chunk := queue[0].value;
      ConcatSnoc(parts, chunk);
      assert (parts + [chunk])[..|parts|] == parts;
      GatherStops(parts + [chunk], total + |chunk|, queue[1..], target);
    }
  }

  // ---- Every chunk is taken once, in order ----

  /** Everything the splitter has emitted for the deltas heard, and its tail once flushed. */
  function AllChunks(st: State, heard: seq<string>, flushed: bool): seq<string> {
    var fed := FeedAll(st, heard);
    fed.out + if flushed && Strip(fed.state.buf) != "" then [Strip(fed.state.buf)] else []
  }

  lemma {:induction false} FeedAllSnoc(st: State, deltas: seq<string>, d: string)
    ensures var before := FeedAll(st, deltas); var after := FeedAll(st, deltas + [d]);
      && after.state == Feed(before.state, d).state
      && after.out == before.out + Feed(before.state, d).out
    decreases |deltas|
  {
    hide Feed;
    if deltas == [] {
      assert (deltas + [d])[1..] == [];
    } else {
      assert (deltas + [d])[1..] == deltas[1..] + [d];
      FeedAllSnoc(Feed(st, deltas[0]).state, deltas[1..], d);
    }
  }

  /** The chunks taken, then those queued, then those still to queue. */
  function InOrder(groups: seq<seq<string>>, queue: seq<Item>, pending: seq<string>): seq<string> {
    Flatten(groups) + Waiters(queue) + pending
  }

  predicate Conserved(t: Turn, st: State, deltas: seq<string>) {
    && t.p.heard + t.p.todo == deltas
    && (t.p.phase.Streaming? ==> t.p.chunker == FeedAll(st, t.p.heard).state)
    && (!t.p.phase.Streaming? ==> t.p.todo == [])
    && (t.p.phase.Waiting? || t.p.phase.Finished? ==> t.p.pending == [])
    && InOrder(t.s.groups, t.queue, t.p.pending) == AllChunks(st, t.p.heard, !t.p.phase.Streaming?)
    && EndsAtMostOnce(t.queue)
    && (HasEnd(t.queue) ==> t.p.pending == [] && !t.p.phase.Streaming? && !t.p.phase.Flushed?)
  }

  lemma PendInOrder(groups: seq<seq<string>>, queue: seq<Item>, pending: seq<string>)
    ensures InOrder(groups, queue, pending) == InOrder(groups, queue, []) + pending
  {}

  lemma PutInOrder(groups: seq<seq<string>>, queue: seq<Item>, pending: seq<string>)
    requires pending != []
    ensures InOrder(groups, queue + [Some(pending[0])], pending[1..]) == InOrder(groups, queue, pending)
  {
    hide Flatten, Waiters;
    WaitersSnoc(queue, Some(pending[0]));
    assert pending == [pending[0]] + pending[1..];
  }

  lemma EndInOrder(groups: seq<seq<string>>, queue: seq<Item>, pending: seq<string>)
    ensures InOrder(groups, queue + [None], pending) == InOrder(groups, queue, pending)
  {
    hide Flatten, Waiters;
    WaitersSnoc(queue, None);
    assert Waiters(queue) + [] == Waiters(queue);
  }

  lemma TakeInOrder(groups: seq<seq<string>>, queue: seq<Item>, pending: seq<string>, target: nat)
    requires queue != [] && queue[0].Some? && EndsAtMostOnce(queue)
    ensures var g := Gather([queue[0].value], |queue[0].value|, queue[1..], target);
      InOrder(groups + [g.parts], g.rest, pending) == InOrder(groups, queue, pending)
  {
    hide Flatten, Gather;
    var item := queue[0].value;
    var g := Gather([item], |item|, queue[1..], target);
    GatherTakes([item], |item|, queue[1..], target);
    FlattenSnoc(groups, g.parts);
    assert Waiters(queue) == [item] + Waiters(queue[1..]) == g.parts + Waiters(g.rest);
    assert Flatten(groups) + Waiters(queue) == (Flatten(groups) + g.parts) + Waiters(g.rest);
  }

  lemma ReadConserves(t: Turn, st: State, deltas: seq<string>)
    requires Conserved(t, st, deltas) && Enabled(t, Read)
    ensures Conserved(Act(t, Read), st, deltas)
  {
    hide Feed, FeedAll, InOrder;
    var t' := Act(t, Read);
    FeedAllSnoc(st, t.p.heard, t.p.todo[0]);
    PendInOrder(t.s.groups, t.queue, t'.p.pending);
    assert t.p.heard + [t.p.todo[0]] + t.p.todo[1..] == t.p.heard + t.p.todo;
    assert AllChunks(st, t.p.heard, false) == FeedAll(st, t.p.heard).out;
    assert AllChunks(st, t'.p.heard, false) == FeedAll(st, t'.p.heard).out;
  }

  lemma FlushConserves(t: Turn, st: State, deltas: seq<string>)
    requires Conserved(t, st, deltas) && Enabled(t, Flush)
    ensures Conserved(Act(t, Flush), st, deltas)
  {
    hide Feed, FeedAll, InOrder, Strip;
    PendInOrder(t.s.groups, t.queue, Act(t, Flush).p.pending);
    assert AllChunks(st, t.p.heard, false) == FeedAll(st, t.p.heard).out;
  }

  lemma QueueTail(queue: seq<Item>)
    requires EndsAtMostOnce(queue) && queue != []
    ensures EndsAtMostOnce(queue[1..])
    ensures if queue[0].None? then queue == [] + [None] && queue[1..] == [] && !HasEnd(queue[1..])
            else HasEnd(queue[1..]) == HasEnd(queue)
  {
    var rest := queue[1..];
    forall i | 0 <= i < |rest| - 1
      ensures rest[i].Some?
    {
      assert rest[i] == queue[i + 1];
    }
    if queue[0].None? {
      assert |queue| == 1;
    } else if rest != [] {
      assert rest[|rest| - 1] == queue[|queue| - 1];
    }
  }

  lemma TakeConserves(t: Turn, st: State, deltas: seq<string>)
    requires Conserved(t, st, deltas) && Enabled(t, Take)
    ensures Conserved(Act(t, Take), st, deltas)
  {
    hide FeedAll, InOrder, Gather, AllChunks, EndsAtMostOnce, HasEnd, Utterance, MergeTarget;
    QueueTail(t.queue);
    if t.queue[0].Some? {
      var item := t.queue[0].value;
      TakeInOrder(t.s.groups, t.queue, t.p.pending, MergeTarget(t));
      GatherEnds([item], |item|, t.queue[1..], MergeTarget(t));
    } else {
      EndInOrder(t.s.groups, [], t.p.pending);
    }
  }

  lemma PutConserves(t: Turn, st: State, deltas: seq<string>, a: Action)
    requires Conserved(t, st, deltas) && Enabled(t, a) && (a.Put? || a.End?)
    ensures Conserved(Act(t, a), st, deltas)
  {
    hide FeedAll, InOrder, AllChunks;
    if a.Put? {
      PutInOrder(t.s.groups, t.queue, t.p.pending);
    } else {
      EndInOrder(t.s.groups, t.queue, t.p.pending);
    }
  }

  lemma ConservedStep(t: Turn, st: State, deltas: seq<string>, a: Action)
    requires Conserved(t, st, deltas)
    ensures Conserved(Step(t, a), st, deltas)
  {
    hide FeedAll, InOrder, AllChunks, EndsAtMostOnce, HasEnd;
    if Enabled(t, a) {
      match a
      case Read => ReadConserves(t, st, deltas);
      case Take => TakeConserves(t, st, deltas);
      case Put => PutConserves(t, st, deltas, a);
      case End => PutConserves(t, st, deltas, a);
      case Flush => FlushConserves(t, st, deltas);
      case _ =>
    }
  }

  // ---- The sentinel ----

  /** The worker has consumed the sentinel: it has returned, or will once the chunk in hand is dealt with. */
  predicate SawEnd(t: Turn) {
    || t.s.worker.Returned?
    || ((t.s.worker.Synthesizing? || t.s.worker.Sending?) && t.s.worker.sawEnd)
  }

  /** The sentinel exists from the moment the producer ends: in the queue, or consumed as its last item. */
  predicate OneEnd(t: Turn) {
    && EndsAtMostOnce(t.queue)
    && (if t.p.phase.Waiting? || t.p.phase.Finished? then HasEnd(t.queue) == !SawEnd(t)
        else !HasEnd(t.queue) && !SawEnd(t))
    && (SawEnd(t) ==> t.queue == [])
    && (t.p.phase.Finished? ==> t.s.worker.Returned?)
    && (t.p.fillerDue ==> t.p.phase.Streaming? && t.p.pending == [])
    && (t.p.announced ==> t.p.pending != [])
  }

  lemma OneEndTake(t: Turn)
    requires OneEnd(t) && Enabled(t, Take)
    ensures OneEnd(Act(t, Take))
  {
    hide Utterance, Gather, EndsAtMostOnce, MergeTarget;
    QueueTail(t.queue);
    if t.queue[0].Some? {
      var item := t.queue[0].value;
      GatherEnds([item], |item|, t.queue[1..], MergeTarget(t));
    }
  }

  lemma QueueGrows(queue: seq<Item>, item: Item)
    requires EndsAtMostOnce(queue) && !HasEnd(queue)
    ensures EndsAtMostOnce(queue + [item]) && HasEnd(queue + [item]) == item.None?
  {
    if queue != [] {
      assert queue[|queue| - 1].Some?;
    }
  }

  lemma OneEndStep(t: Turn, a: Action)
    requires OneEnd(t) && (a.Put? && Enabled(t, a) ==> !t.p.phase.Waiting? && !t.p.phase.Finished?)
    ensures OneEnd(Step(t, a))
  {
    hide Feed, Strip, EndsAtMostOnce, HasEnd;
    if Enabled(t, a) {
      match a
      case Take => OneEndTake(t);
      case Put => QueueGrows(t.queue, Some(t.p.pending[0]));
      case End => QueueGrows(t.queue, None);
      case _ =>
    }
  }

  // ---- What is said ----

  function Utterances(groups: seq<seq<string>>): seq<string> {
    if groups == [] then [] else [Utterance(groups[0])] + Utterances(groups[1..])
  }

  lemma {:induction false} UtterancesSnoc(groups: seq<seq<string>>, g: seq<string>)
    ensures Utterances(groups + [g]) == Utterances(groups) + [Utterance(g)]
  {
    hide Utterance;
    if groups == [] {
      assert (groups + [g])[1..] == [];
    } else {
      assert (groups + [g])[1..] == groups[1..] + [g];
      UtterancesSnoc(groups[1..], g);
    }
  }

  /** A non-empty group of chunks always says something: the chunks woven with their marks. */
  lemma {:induction false} ChunksSpeak(parts: seq<string>)
    requires parts != [] && Chunks(parts)
    ensures AllNonEmpty(parts) && Utterance(parts) == Woven(parts) != ""
  {
    hide Strip;
    ChunksAreNonBlank(parts);
    assert parts[0] != "";
  }

  function Audios(sent: seq<Event>): seq<string> {
    if sent == [] then [] else (if sent[0].Audio? then [sent[0].text] else []) + Audios(sent[1..])
  }

  function Partials(sent: seq<Event>): seq<string> {
    if sent == [] then [] else (if sent[0].Partial? then [sent[0].text] else []) + Partials(sent[1..])
  }

  function Speakings(sent: seq<Event>): nat {
    if sent == [] then 0 else (if sent[0].Speaking? then 1 else 0) + Speakings(sent[1..])
  }

  lemma {:induction false} SentSnoc(sent: seq<Event>, e: Event)
    ensures Audios(sent + [e]) == Audios(sent) + (if e.Audio? then [e.text] else [])
    ensures Partials(sent + [e]) == Partials(sent) + (if e.Partial? then [e.text] else [])
    ensures Speakings(sent + [e]) == Speakings(sent) + (if e.Speaking? then 1 else 0)
  {
    var more := sent + [e];
    if sent == [] {
      assert more[1..] == [] && more[0] == e;
    } else {
      assert more[1..] == sent[1..] + [e] && more[0] == sent[0];
      SentSnoc(sent[1..], e);
      var audio := if sent[0].Audio? then [sent[0].text] else [];
      var partial := if sent[0].Partial? then [sent[0].text] else [];
      SeqAssoc(audio, Audios(sent[1..]), if e.Audio? then [e.text] else []);
      SeqAssoc(partial, Partials(sent[1..]), if e.Partial? then [e.text] else []);
    }
  }

  /** The texts whose synthesis worked, in order. */
  function Worked(tried: seq<string>, worked: seq<bool>): seq<string>
    requires |worked| <= |tried|
  {
    if worked == [] then []
    else (if worked[0] then [tried[0]] else []) + Worked(tried[1..], worked[1..])
  }

  lemma {:induction false} WorkedSnoc(tried: seq<string>, worked: seq<bool>, ok: bool)
    requires |worked| < |tried|
    ensures Worked(tried, worked + [ok]) == Worked(tried, worked) + if ok then [tried[|worked|]] else []
  {
    if worked == [] {
      assert (worked + [ok])[1..] == [];
    } else {
      assert (worked + [ok])[1..] == worked[1..] + [ok];
      WorkedSnoc(tried[1..], worked[1..], ok);
    }
  }

  lemma {:induction false} WorkedMore(tried: seq<string>, worked: seq<bool>, text: string)
    requires |worked| <= |tried|
    ensures Worked(tried + [text], worked) == Worked(tried, worked)
  {
    if worked != [] {
      assert (tried + [text])[1..] == tried[1..] + [text];
      WorkedMore(tried[1..], worked[1..], text);
    }
  }

  /** The audio sent is what was synthesized; each group taken was tried once, as its chunks woven together. */
  predicate Spoken(t: Turn) {
    && t.s.tried == Utterances(t.s.groups)
    && |t.s.worked| + (if t.s.worker.Synthesizing? then 1 else 0) == |t.s.tried|
    && (t.s.worker.Synthesizing? ==> t.s.worker.sentence == t.s.tried[|t.s.worked|])
    && Worked(t.s.tried, t.s.worked) == Audios(t.sent) + if t.s.worker.Sending? then [t.s.worker.sentence] else []
  }

  lemma SpokenTake(t: Turn, st: State, deltas: seq<string>)
    requires Spoken(t) && Enabled(t, Take)
    requires t.queue[0].Some? ==> Utterance(TakenGroup(t)) != ""
    ensures Spoken(Act(t, Take))
  {
    hide Utterance, Gather, Audios, Utterances, Worked;
    if t.queue[0].Some? {
      var item := t.queue[0].value;
      var g := Gather([item], |item|, t.queue[1..], MergeTarget(t));
      UtterancesSnoc(t.s.groups, g.parts);
      WorkedMore(t.s.tried, t.s.worked, Utterance(g.parts));
    }
  }

  lemma SpokenStep(t: Turn, a: Action)
    requires Spoken(t) && !a.Take?
    ensures Spoken(Step(t, a))
  {
    hide ReadNext, Audios, Utterances, Worked;
    if Enabled(t, a) {
      if a.Synthesized? {
        WorkedSnoc(t.s.tried, t.s.worked, a.ok);
      }
      if Sends(t, a) != [] {
        SentSnoc(t.sent, Sends(t, a)[0]);
      } else {
        assert t.sent + Sends(t, a) == t.sent;
      }
    }
  }

  /** "Speaking" is requested before any audio of the turn itself, and exactly once per turn. */
  predicate SpeaksFirst(sent: seq<Event>) {
    forall i | 0 <= i < |sent| && sent[i].Audio? :: Speakings(sent[..i]) == 1
  }

  predicate Announced(t: Turn) {
    && Speakings(t.sent) == (if t.s.firstAudio || t.p.phase.Finished? then 1 else 0)
    && (t.s.worker.Sending? ==> t.s.firstAudio)
    && (Audios(t.sent) != [] ==> t.s.firstAudio)
    && SpeaksFirst(t.sent)
  }

  lemma SpeaksFirstSnoc(sent: seq<Event>, e: Event)
    requires SpeaksFirst(sent) && (e.Audio? ==> Speakings(sent) == 1)
    ensures SpeaksFirst(sent + [e])
  {
    var more := sent + [e];
    forall i | 0 <= i < |more| && more[i].Audio?
      ensures Speakings(more[..i]) == 1
    {
      if i < |sent| {
        assert more[..i] == sent[..i];
      } else {
        assert more[..i] == sent;
      }
    }
  }

  lemma AnnouncedStep(t: Turn, a: Action)
    requires Announced(t) && (t.p.phase.Finished? ==> t.s.worker.Returned?)
    ensures Announced(Step(t, a))
  {
    hide Feed, Strip, Audios, Speakings, SpeaksFirst, TakeNext;
    if Enabled(t, a) {
      if a.Take? {
        TakeKeeps(t.s, t.queue, MergeTarget(t));
      } else if Sends(t, a) != [] {
        SentSnoc(t.sent, Sends(t, a)[0]);
        SpeaksFirstSnoc(t.sent, Sends(t, a)[0]);
      } else {
        assert t.sent + Sends(t, a) == t.sent;
      }
    }
  }

  lemma TakeKeeps(s: Speaker, queue: seq<Item>, target: nat)
    requires queue != []
    ensures var (s', _) := TakeNext(s, queue, target); s'.firstAudio == s.firstAudio && !s'.worker.Sending?
  {
    hide Gather, Utterance;
  }

  // ---- Partials ----

  /** The chunks not yet shown to the client. */
  function Untold(p: Producer): seq<string> {
    if p.announced && p.pending != [] then p.pending[1..] else p.pending
  }

  /** The client has been shown every chunk emitted so far, in order, except those still pending. */
  predicate Told(t: Turn, st: State) {
    Partials(t.sent) + Untold(t.p) == AllChunks(st, t.p.heard, !t.p.phase.Streaming?)
  }

  lemma {:induction false} ReadTold(t: Turn, st: State, deltas: seq<string>, a: Action)
    requires Conserved(t, st, deltas) && OneEnd(t) && Told(t, st) && Enabled(t, a) && (a.Read? || a.Flush?)
    ensures Told(Act(t, a), st)
  {
    hide FeedAll, Feed, Strip, Partials, TakeNext, InOrder;
    assert Partials(t.sent) == Partials(t.sent) + [];
    assert AllChunks(st, t.p.heard, false) == FeedAll(st, t.p.heard).out;
    if a.Read? {
      FeedAllSnoc(st, t.p.heard, t.p.todo[0]);
      assert AllChunks(st, Act(t, a).p.heard, false) == FeedAll(st, Act(t, a).p.heard).out;
    }
  }

  /** Showing and queueing a chunk moves it from the pending ones to those shown. */
  lemma ShowKeeps(t: Turn, a: Action)
    requires Enabled(t, a) && (a.Announce? || a.Put?)
    ensures var t' := Act(t, a);
      && t'.p.heard == t.p.heard && t'.p.phase == t.p.phase
      && Partials(t'.sent) + Untold(t'.p) == Partials(t.sent) + Untold(t.p)
  {
    hide Partials, ReadNext, TakeNext;
    if a.Announce? {
      SentSnoc(t.sent, Sends(t, a)[0]);
      assert t.p.pending == [t.p.pending[0]] + t.p.pending[1..];
    }
  }

  /** The other steps leave alone what has been read and what is still to show. */
  lemma QuietStep(t: Turn, a: Action)
    requires Enabled(t, a) && !a.Read? && !a.Flush? && !a.Announce? && !a.Put?
    ensures var t' := Act(t, a);
      && t'.p.heard == t.p.heard && t'.p.phase.Streaming? == t.p.phase.Streaming? && Untold(t'.p) == Untold(t.p)
      && t'.sent == t.sent + Sends(t, a)
      && (Sends(t, a) == [] || (|Sends(t, a)| == 1 && !Sends(t, a)[0].Partial?))
  {
    hide ReadNext, TakeNext;
  }

  lemma SamePartials(sent: seq<Event>, more: seq<Event>)
    requires more == [] || (|more| == 1 && !more[0].Partial?)
    ensures Partials(sent + more) == Partials(sent)
  {
    hide Audios, Speakings, Partials;
    if more == [] {
      assert sent + more == sent;
    } else {
      SentSnoc(sent, more[0]);
      assert more == [more[0]];
      assert Partials(sent) + [] == Partials(sent);
    }
  }

  lemma {:induction false} ToldStep(t: Turn, st: State, deltas: seq<string>, a: Action)
    requires Conserved(t, st, deltas) && OneEnd(t) && Told(t, st)
    ensures Told(Step(t, a), st)
  {
    hide Act, Enabled, Untold, Partials, AllChunks, OneEnd, Conserved, Sends;
    if Enabled(t, a) {
      if a.Read? || a.Flush? {
        ReadTold(t, st, deltas, a);
      } else if a.Announce? || a.Put? {
        ShowKeeps(t, a);
      } else {
        QuietStep(t, a);
        SamePartials(t.sent, Sends(t, a));
      }
    }
  }

  // ---- All runs ----

  lemma AllAreChunks(st: State, heard: seq<string>, flushed: bool)
    ensures Chunks(AllChunks(st, heard, flushed))
  {
    hide Strip, FeedAll, Trimmed;
    StreamConserves(st, heard);
    StripTrims(FeedAll(st, heard).state.buf);
  }

  /** What a take of a chunk takes. */
  function TakenGroup(t: Turn): seq<string>
    requires t.queue != [] && t.queue[0].Some?
  {
    Gather([t.queue[0].value], |t.queue[0].value|, t.queue[1..], MergeTarget(t)).parts
  }

  /** Only a take of a chunk adds a group, and only the end of a synthesis adds to `worked`. */
  lemma GroupsAfter(t: Turn, a: Action)
    requires Enabled(t, a)
    ensures Act(t, a).s.groups == t.s.groups + if a.Take? && t.queue[0].Some? then [TakenGroup(t)] else []
    ensures Act(t, a).s.worked == t.s.worked + if a.Synthesized? then [a.ok] else []
    ensures Act(t, a).s.firstChunkDone == (t.s.firstChunkDone || (a.Synthesized? && a.ok)) && Act(t, a).fast == t.fast
    ensures a.Take? ==> Act(t, a).p == t.p
  {
    hide ReadNext, Gather, Utterance;
  }

  lemma FlattenMember(groups: seq<seq<string>>, g: seq<string>, c: string)
    requires c in g
    ensures c in Flatten(groups + [g])
  {
    FlattenSnoc(groups, g);
  }

  /** A take yields a non-empty group of proper chunks. */
  lemma {:induction false} TakenAreChunks(t: Turn, st: State, deltas: seq<string>)
    requires Conserved(t, st, deltas) && Enabled(t, Take) && t.queue[0].Some?
    ensures TakenGroup(t) != [] && Chunks(TakenGroup(t))
  {
    hide Utterance, Gather, AllChunks, FeedAll, Trimmed, Act, Flatten, EndsAtMostOnce, HasEnd;
    var g := TakenGroup(t);
    TakeConserves(t, st, deltas);
    GroupsAfter(t, Take);
    AllAreChunks(st, t.p.heard, !t.p.phase.Streaming?);
    forall c | c in g
      ensures c != "" && Trimmed(c)
    {
      FlattenMember(t.s.groups, g, c);
      assert c in InOrder(Act(t, Take).s.groups, Act(t, Take).queue, Act(t, Take).p.pending);
    }
    assert [t.queue[0].value] <= g;
  }

  predicate Sound(t: Turn, st: State, deltas: seq<string>) {
    Conserved(t, st, deltas) && OneEnd(t) && Spoken(t) && Announced(t) && Told(t, st)
  }

  lemma SoundStep(t: Turn, st: State, deltas: seq<string>, a: Action)
    requires Sound(t, st, deltas)
    ensures Sound(Step(t, a), st, deltas)
  {
    hide Feed, FeedAll, InOrder, AllChunks, Gather, Utterance, Utterances;
    hide Worked, Audios, Speakings, SpeaksFirst, Partials;
    ConservedStep(t, st, deltas, a);
    OneEndStep(t, a);
    AnnouncedStep(t, a);
    ToldStep(t, st, deltas, a);
    if a.Take? && Enabled(t, a) {
      if t.queue[0].Some? {
        TakenAreChunks(t, st, deltas);
        ChunksSpeak(TakenGroup(t));
      }
      SpokenTake(t, st, deltas);
    } else if !a.Take? {
      SpokenStep(t, a);
    }
  }

  lemma SoundStart(fast: bool, deltas: seq<string>)
    ensures var t := Start(fast, deltas); Sound(t, t.p.chunker, deltas)
  {
    var t := Start(fast, deltas);
    assert Strip("") == "";
    assert FeedAll(t.p.chunker, []) == Chunker.Step(t.p.chunker, []);
  }

  lemma {:induction false} SoundRun(fast: bool, deltas: seq<string>, actions: seq<Action>)
    ensures Sound(Run(Start(fast, deltas), actions), Start(fast, deltas).p.chunker, deltas)
  {
    hide Sound, Start, Step;
    if actions == [] {
      SoundStart(fast, deltas);
    } else {
      var last := |actions| - 1;
      SoundRun(fast, deltas, actions[..last]);
      SoundStep(Run(Start(fast, deltas), actions[..last]), Start(fast, deltas).p.chunker, deltas, actions[last]);
    }
  }

  /**
   Under every interleaving and any synthesis failures, at every moment: the chunks taken by the worker, those queued
   and those still to queue are the splitter's output in order, each exactly once; each group taken has been tried
   once, in order; the audio sent is exactly what was synthesized; "speaking" comes once, before any of it; and
   the worker has returned, or is about to, exactly when it has consumed the sentinel.
   */
  lemma {:induction false} EveryInterleaving(fast: bool, deltas: seq<string>, actions: seq<Action>)
    ensures var t := Run(Start(fast, deltas), actions);
      var st := Start(fast, deltas).p.chunker;
      && Flatten(t.s.groups) + Waiters(t.queue) + t.p.pending == AllChunks(st, t.p.heard, !t.p.phase.Streaming?)
      && t.s.tried == Utterances(t.s.groups)
      && |t.s.worked| <= |t.s.tried| && Audios(t.sent) <= Worked(t.s.tried, t.s.worked)
      && SpeaksFirst(t.sent) && Speakings(t.sent) <= 1
      && (SawEnd(t) <==> (t.p.phase.Waiting? || t.p.phase.Finished?) && t.queue == [])
  {
    hide Flatten, Waiters, AllChunks, Utterances, Worked, Audios, Speakings, Start, Run;
    SoundRun(fast, deltas, actions);
  }

  /**
   A finished turn has said everything: the worker took every chunk, the client was shown every chunk, the text of
   the turn is the model's text up to whitespace, "speaking" was requested exactly once, and when no synthesis
   failed the audio is that of all groups, in order.
   */
  lemma FinishedTurn(fast: bool, deltas: seq<string>, actions: seq<Action>)
    requires Run(Start(fast, deltas), actions).p.phase.Finished?
    ensures var t := Run(Start(fast, deltas), actions);
      && t.queue == [] && t.s.worker.Returned?
      && Partials(t.sent) == Flatten(t.s.groups)
      && Erase(Concat(Flatten(t.s.groups))) == Erase(Concat(deltas))
      && Speakings(t.sent) == 1
      && |t.s.worked| == |t.s.tried| && Audios(t.sent) == Worked(t.s.tried, t.s.worked)
      && ((forall i | 0 <= i < |t.s.worked| :: t.s.worked[i]) ==> Audios(t.sent) == Utterances(t.s.groups))
  {
    hide Feed, Flatten, Utterances, Audios, Speakings, Run, Erase, Concat, Strip, FeedAll;
    var t := Run(Start(fast, deltas), actions);
    var st := Start(fast, deltas).p.chunker;
    SoundRun(fast, deltas, actions);
    assert Flatten(t.s.groups) == AllChunks(st, deltas, true) by {
      assert t.p.heard + [] == t.p.heard;
      assert Waiters([]) == [];
      assert Flatten(t.s.groups) + [] + [] == Flatten(t.s.groups);
    }
    assert Partials(t.sent) + [] == Partials(t.sent);
    AllSaid(st, deltas);
    if forall i | 0 <= i < |t.s.worked| :: t.s.worked[i] {
      AllWorked(t.s.tried, t.s.worked);
    }
  }

  lemma {:induction false} AllSaid(st: State, deltas: seq<string>)
    requires st.buf == ""
    ensures Erase(Concat(AllChunks(st, deltas, true))) == Erase(Concat(deltas))
  {
    hide Erase, Concat, Strip, FeedAll;
    var fed := FeedAll(st, deltas);
    var tail := Strip(fed.state.buf);
    StreamConserves(st, deltas);
    NothingToErase();
    NothingToConcat();
    if tail != "" {
      EraseConcatAppend(fed.out, [tail]);
      EraseConcatOne(tail);
      StripTrims(fed.state.buf);
      StripTrimmed(tail);
    } else {
      assert fed.out + [] == fed.out;
    }
    assert Erase("") + Erase(Concat(deltas)) == Erase(Concat(deltas));
  }

  lemma {:induction false} AllWorked(tried: seq<string>, worked: seq<bool>)
    requires |worked| == |tried| && forall i | 0 <= i < |worked| :: worked[i]
    ensures Worked(tried, worked) == tried
  {
    if worked != [] {
      AllWorked(tried[1..], worked[1..]);
      assert tried == [tried[0]] + tried[1..];
    }
  }

  predicate NoneWorked(worked: seq<bool>, i: nat) { forall k | 0 <= k < i && k < |worked| :: !worked[k] }

  /** The merge target of the i-th take: short in fast mode until a synthesis has worked. */
  function TargetAt(fast: bool, worked: seq<bool>, i: nat): nat { if fast && NoneWorked(worked, i) then 20 else 90 }

  /** A proper group: some chunks, short of the merge target until the last one came in. */
  predicate ProperGroup(g: seq<string>, target: nat) {
    g != [] && Chunks(g) && |Concat(g[..|g| - 1])| < target
  }

  /** Each take so far was proper for its own target. */
  predicate Grouped(t: Turn) {
    && t.s.firstChunkDone == !NoneWorked(t.s.worked, |t.s.worked|)
    && forall i | 0 <= i < |t.s.groups| :: ProperGroup(t.s.groups[i], TargetAt(t.fast, t.s.worked, i))
  }

  lemma TakenIsProper(t: Turn, st: State, deltas: seq<string>)
    requires Conserved(t, st, deltas) && Enabled(t, Take) && t.queue[0].Some?
    ensures ProperGroup(TakenGroup(t), MergeTarget(t))
  {
    hide Utterance, Concat, Conserved, Chunks, Act, Gather;
    var item := t.queue[0].value;
    TakenAreChunks(t, st, deltas);
    JustOne(item);
    GatherStops([item], |item|, t.queue[1..], MergeTarget(t));
  }

  lemma JustOne(item: string)
    ensures |Concat([item])| == |item| && [item][..0] == [] && |Concat([])| == 0
  {
    assert [item][1..] == [];
  }

  /** A synthesis under way or done for each group; all done when the worker is idle. */
  lemma WorkedCounts(t: Turn)
    requires Spoken(t)
    ensures |t.s.worked| <= |t.s.groups| <= |t.s.worked| + 1
    ensures !t.s.worker.Synthesizing? ==> |t.s.worked| == |t.s.groups|
  {
    if t.s.groups != [] {
      UtteranceAt(t.s.groups, 0);
    }
  }

  /** What later syntheses did does not change the target of an earlier take. */
  lemma SameTarget(fast: bool, worked: seq<bool>, more: seq<bool>, i: nat)
    requires i <= |worked|
    ensures TargetAt(fast, worked + more, i) == TargetAt(fast, worked, i)
  {
    assert forall k | 0 <= k < i :: (worked + more)[k] == worked[k];
  }

  lemma WorkedSoFar(worked: seq<bool>, more: seq<bool>)
    requires more == [] || |more| == 1
    ensures NoneWorked(worked + more, |worked + more|) <==> NoneWorked(worked, |worked|) && (more == [] || !more[0])
  {
    var all := worked + more;
    assert forall k | 0 <= k < |worked| :: all[k] == worked[k];
    assert more != [] ==> all[|worked|] == more[0];
  }

  lemma GroupedStep(t: Turn, st: State, deltas: seq<string>, a: Action)
    requires Conserved(t, st, deltas) && Spoken(t) && Grouped(t) && Enabled(t, a)
    ensures Grouped(Act(t, a))
  {
    hide Conserved, Spoken, Act, ProperGroup, TakenGroup;
    WorkedCounts(t);
    GroupsAfter(t, a);
    var more := if a.Synthesized? then [a.ok] else [];
    var s, s' := t.s, Act(t, a).s;
    assert s'.worked == s.worked + more;
    WorkedSoFar(s.worked, more);
    if a.Take? && t.queue[0].Some? {
      TakenIsProper(t, st, deltas);
      assert TargetAt(t.fast, s.worked, |s.worked|) == MergeTarget(t) && |s.worked| == |s.groups|;
    }
    forall i | 0 <= i < |s'.groups|
      ensures ProperGroup(s'.groups[i], TargetAt(t.fast, s'.worked, i))
    {
      SameTarget(t.fast, s.worked, more, i);
      assert i < |s.groups| ==> s'.groups[i] == s.groups[i];
    }
  }

  lemma {:induction false} GroupedRun(fast: bool, deltas: seq<string>, actions: seq<Action>)
    ensures Grouped(Run(Start(fast, deltas), actions))
  {
    hide Grouped, Act, Enabled, Conserved, OneEnd, Spoken, Announced, Told, Start;
    if actions == [] {
      GroupedStart(fast, deltas);
    } else {
      var last := |actions| - 1;
      var t := Run(Start(fast, deltas), actions[..last]);
      GroupedRun(fast, deltas, actions[..last]);
      SoundRun(fast, deltas, actions[..last]);
      if Enabled(t, actions[last]) {
        GroupedStep(t, Start(fast, deltas).p.chunker, deltas, actions[last]);
      }
    }
  }

  lemma GroupedStart(fast: bool, deltas: seq<string>)
    ensures Grouped(Start(fast, deltas))
  {}

  lemma {:induction false} UtteranceAt(groups: seq<seq<string>>, i: nat)
    requires i < |groups|
    ensures |Utterances(groups)| == |groups| && Utterances(groups)[i] == Utterance(groups[i])
  {
    hide Utterance;
    if i > 0 {
      UtteranceAt(groups[1..], i - 1);
    } else if |groups| > 1 {
      UtteranceAt(groups[1..], 0);
    }
  }

  /**
   In every interleaving, each text handed to synthesis is the join of the consecutive chunks of one take, with a
   full stop added exactly between neighbours neither of whose touching characters is a pause. The take went on only
   while under its target: 20 characters in fast mode until a synthesis had worked, 90 otherwise.
   */
  lemma TriedIsWoven(fast: bool, deltas: seq<string>, actions: seq<Action>, i: nat) returns (at: seq<nat>)
    requires i < |Run(Start(fast, deltas), actions).s.groups|
    ensures var s := Run(Start(fast, deltas), actions).s;
      && |s.tried| == |s.groups| && ProperGroup(s.groups[i], TargetAt(fast, s.worked, i))
      && AllNonEmpty(s.groups[i]) && s.tried[i] != "" && Joins(s.tried[i], s.groups[i], at)
  {
    hide Start, Run, Utterances, Utterance, Conserved, OneEnd, Announced, Told, Woven, TargetAt, Joins;
    var t := Run(Start(fast, deltas), actions);
    SoundRun(fast, deltas, actions);
    GroupedRun(fast, deltas, actions);
    SameMode(fast, deltas, actions);
    UtteranceAt(t.s.groups, i);
    ChunksSpeak(t.s.groups[i]);
    at := WovenJoins(t.s.groups[i]);
  }

  lemma {:induction false} SameMode(fast: bool, deltas: seq<string>, actions: seq<Action>)
    ensures Run(Start(fast, deltas), actions).fast == fast
  {
    hide Act, Enabled;
    if actions != [] {
      var last := |actions| - 1;
      var t := Run(Start(fast, deltas), actions[..last]);
      SameMode(fast, deltas, actions[..last]);
      if Enabled(t, actions[last]) {
        GroupsAfter(t, actions[last]);
      }
    }
  }

  /** No deadlock: until the turn is finished, the producer or the worker can move (without waiting for a filler). */
  lemma NoDeadlock(fast: bool, deltas: seq<string>, actions: seq<Action>)
    requires !Run(Start(fast, deltas), actions).p.phase.Finished?
    ensures exists a: Action :: !a.StartFiller? && Enabled(Run(Start(fast, deltas), actions), a)
  {
    hide Sound, Run, Start;
    var t := Run(Start(fast, deltas), actions);
    SoundRun(fast, deltas, actions);
    SoundCanMove(t, Start(fast, deltas).p.chunker, deltas);
  }

  lemma SoundCanMove(t: Turn, st: State, deltas: seq<string>)
    requires Sound(t, st, deltas) && !t.p.phase.Finished?
    ensures exists a: Action :: !a.StartFiller? && Enabled(t, a)
  {
    hide Spoken, Announced, Told, AllChunks, InOrder, FeedAll;
    var a :=
      if t.p.fillerDue then SendFiller
      else if t.p.pending != [] then (if t.p.announced then Put else Announce)
      else if t.p.phase.Streaming? then (if t.p.todo == [] then Flush else Read)
      else if t.p.phase.Flushed? then End
      else match t.s.worker
        case Idle => Take
        case Synthesizing(_, _) => Synthesized(true)
        case Sending(_, _) => Send
        case Returned => Finish;
    assert Enabled(t, a);
  }

  // ---- Fillers, and the splitter's limit ----

  function Fillers(sent: seq<Event>): nat {
    if sent == [] then 0 else Fillers(sent[..|sent| - 1]) + if sent[|sent| - 1].Filler? then 1 else 0
  }

  predicate FillerOnce(t: Turn) {
    Fillers(t.sent) == (if t.p.fillerSent then 1 else 0) && !(t.p.fillerDue && t.p.fillerSent)
  }

  lemma FillersAfter(sent: seq<Event>, more: seq<Event>)
    requires |more| <= 1
    ensures Fillers(sent + more) == Fillers(sent) + if more != [] && more[0].Filler? then 1 else 0
  {
    if more == [] {
      assert sent + more == sent;
    } else {
      assert (sent + more)[..|sent|] == sent && (sent + more)[|sent|] == more[0];
    }
  }

  lemma FillerStep(t: Turn, a: Action)
    requires FillerOnce(t) && Enabled(t, a)
    ensures FillerOnce(Act(t, a))
  {
    hide Fillers, TakeNext, Feed, Strip;
    FillersAfter(t.sent, Sends(t, a));
    assert Act(t, a).sent == t.sent + Sends(t, a);
  }

  /** In every interleaving at most one filler is played. */
  lemma {:induction false} OneFiller(fast: bool, deltas: seq<string>, actions: seq<Action>)
    ensures FillerOnce(Run(Start(fast, deltas), actions)) && Fillers(Run(Start(fast, deltas), actions).sent) <= 1
  {
    hide Act, Enabled;
    if actions != [] {
      var last := |actions| - 1;
      var t := Run(Start(fast, deltas), actions[..last]);
      OneFiller(fast, deltas, actions[..last]);
      if Enabled(t, actions[last]) {
        FillerStep(t, actions[last]);
      }
    }
  }

  lemma {:induction false} SameLimit(st: State, deltas: seq<string>)
    requires st.Valid()
    ensures FeedAll(st, deltas).state.softLimit == st.softLimit && FeedAll(st, deltas).state.Valid()
    decreases |deltas|
  {
    hide Feed;
    if deltas != [] {
      PushBounds(st, deltas[0]);
      SameLimit(Feed(st, deltas[0]).state, deltas[1..]);
    }
  }

  lemma StartLimit(fast: bool, deltas: seq<string>)
    ensures Start(fast, deltas).p.chunker == State("", if fast then 20 else 24, false)
  {}

  /**
   While the model streams, at most so much text is held back: under 12 characters before the first chunk, then under
   20 in fast mode and 24 otherwise, beyond the characters that came several to a delta.
   */
  lemma HeldBack(fast: bool, deltas: seq<string>, actions: seq<Action>)
    requires Run(Start(fast, deltas), actions).p.phase.Streaming?
    ensures var p := Run(Start(fast, deltas), actions).p;
      |p.chunker.buf| < (if !p.chunker.emitted then 12 else if fast then 20 else 24) + Surplus(p.heard)
  {
    hide Run, FeedAll, Surplus, OneEnd, Spoken, Announced, Told;
    var st := Start(fast, deltas).p.chunker;
    var p := Run(Start(fast, deltas), actions).p;
    StartLimit(fast, deltas);
    SoundRun(fast, deltas, actions);
    BufferBound(st, p.heard, 0);
    SameLimit(st, p.heard);
  }

  // ---- Termination ----

  /** The chunks the splitter has yet to emit. */
  function Unborn(p: Producer): nat {
    if p.phase.Streaming? then |AllChunks(p.chunker, p.todo, true)| else 0
  }

  function PhasesLeft(p: Phase): nat {
    match p
    case Streaming => 4
    case Flushed => 3
    case Waiting => 1
    case Finished => 0
  }

  function FillerLeft(p: Producer): nat {
    if p.fillerDue then 1 else if p.fillerSent then 0 else 2
  }

  /** Five steps for each chunk not yet announced, four for the announced one. */
  function PendingLeft(p: Producer): nat {
    5 * |p.pending| - if p.announced && p.pending != [] then 1 else 0
  }

  function QueueLeft(queue: seq<Item>): nat {
    if queue == [] then 0 else (if queue[0].None? then 1 else 3) + QueueLeft(queue[1..])
  }

  function WorkerLeft(w: Worker): nat {
    if w.Synthesizing? then 2 else if w.Sending? then 1 else 0
  }

  /** The steps a turn can still take. */
  function StepsLeft(t: Turn): nat {
    |t.p.todo| + PhasesLeft(t.p.phase) + FillerLeft(t.p) + 5 * Unborn(t.p) + PendingLeft(t.p)
    + QueueLeft(t.queue) + WorkerLeft(t.s.worker)
  }

  lemma {:induction false} QueueLeftSnoc(queue: seq<Item>, item: Item)
    ensures QueueLeft(queue + [item]) == QueueLeft(queue) + if item.None? then 1 else 3
  {
    if queue == [] {
      assert (queue + [item])[1..] == [];
    } else {
      assert (queue + [item])[1..] == queue[1..] + [item];
      QueueLeftSnoc(queue[1..], item);
    }
  }

  lemma {:induction false} GatherShrinks(parts: seq<string>, total: nat, queue: seq<Item>, target: nat)
    ensures QueueLeft(Gather(parts, total, queue, target).rest) <= QueueLeft(queue)
    decreases |queue|
  {
    if total < target && queue != [] && queue[0].Some? {
      GatherShrinks(parts + [queue[0].value], total + |queue[0].value|, queue[1..], target);
    }
  }

  /** Reading moves chunks from the splitter's future into the pending list. */
  lemma UnbornRead(p: Producer)
    requires p.phase.Streaming? && p.todo != []
    ensures Unborn(p) == Unborn(ReadNext(p)) + |ReadNext(p).pending|
  {
    hide Feed, Strip;
  }

  lemma UnbornFlush(p: Producer)
    requires p.phase.Streaming? && p.todo == []
    ensures Unborn(p) == |ReadNext(p).pending| && ReadNext(p).phase.Flushed?
  {
    hide Feed, Strip;
  }

  lemma ReadLeft(t: Turn, a: Action)
    requires Enabled(t, a) && (a.Read? || a.Flush?)
    ensures StepsLeft(Act(t, a)) < StepsLeft(t)
  {
    hide Feed, Strip, AllChunks, QueueLeft, Unborn;
    if a.Read? {
      UnbornRead(t.p);
    } else {
      UnbornFlush(t.p);
      NoneUnborn(ReadNext(t.p));
    }
  }

  lemma NoneUnborn(p: Producer)
    requires !p.phase.Streaming?
    ensures Unborn(p) == 0
  {}

  lemma TakeLeft(t: Turn)
    requires Enabled(t, Take)
    ensures StepsLeft(Act(t, Take)) < StepsLeft(t)
  {
    hide Gather, Utterance, AllChunks, Unborn, PendingLeft;
    if t.queue[0].Some? {
      GatherShrinks([t.queue[0].value], |t.queue[0].value|, t.queue[1..], MergeTarget(t));
    }
  }

  lemma OtherLeft(t: Turn, a: Action)
    requires Enabled(t, a) && !a.Read? && !a.Flush? && !a.Take?
    ensures StepsLeft(Act(t, a)) < StepsLeft(t)
  {
    hide AllChunks, QueueLeft, Unborn, ReadNext, TakeNext;
    SameUnborn(t, a);
    if a.Put? {
      QueueLeftSnoc(t.queue, Some(t.p.pending[0]));
    } else if a.End? {
      QueueLeftSnoc(t.queue, None);
    }
  }

  lemma SameUnborn(t: Turn, a: Action)
    requires Enabled(t, a) && !a.Read? && !a.Flush? && !a.Take?
    ensures Unborn(Act(t, a).p) == Unborn(t.p)
  {
    hide AllChunks, ReadNext, TakeNext;
  }

  /** Every step of producer or worker brings the turn nearer to its end. */
  lemma StepsDecrease(t: Turn, a: Action)
    requires Enabled(t, a)
    ensures StepsLeft(Act(t, a)) < StepsLeft(t)
  {
    hide Act, StepsLeft, Enabled;
    if a.Read? || a.Flush? {
      ReadLeft(t, a);
    } else if a.Take? {
      TakeLeft(t);
    } else {
      OtherLeft(t, a);
    }
  }

  /** Each action of the schedule is enabled when its turn comes. */
  predicate Lively(t: Turn, actions: seq<Action>) {
    actions == [] || (var last := |actions| - 1;
                      Lively(t, actions[..last]) && Enabled(Run(t, actions[..last]), actions[last]))
  }

  lemma {:induction false} LivelyIsShort(t: Turn, actions: seq<Action>)
    requires Lively(t, actions)
    ensures |actions| + StepsLeft(Run(t, actions)) <= StepsLeft(t)
  {
    hide Act, StepsLeft, Enabled;
    if actions != [] {
      var last := |actions| - 1;
      LivelyIsShort(t, actions[..last]);
      StepsDecrease(Run(t, actions[..last]), actions[last]);
    }
  }

  /**
   Termination: whatever the interleaving and the failures, a turn takes at most six steps, one for each delta and
   five for each chunk of the model's text; and when no step is possible any more it is finished.
   */
  lemma {:induction false} EveryTurnFinishes(fast: bool, deltas: seq<string>, actions: seq<Action>)
    requires Lively(Start(fast, deltas), actions)
    ensures |actions| <= 6 + |deltas| + 5 * |AllChunks(Start(fast, deltas).p.chunker, deltas, true)|
    ensures var t := Run(Start(fast, deltas), actions);
      (forall a: Action :: !Enabled(t, a)) ==> t.p.phase.Finished?
  {
    hide Act, Enabled, Run, AllChunks;
    LivelyIsShort(Start(fast, deltas), actions);
    if !Run(Start(fast, deltas), actions).p.phase.Finished? {
      NoDeadlock(fast, deltas, actions);
    }
  }
}
