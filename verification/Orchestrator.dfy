/**
 The streaming turn orchestrator: fragments out as they come, audio and viseme chunks per sentence. The turn may be
 cancelled at any await, and synthesis may fail on any sentence; both are nondeterministic here, so what the
 methods ensure holds for every such history. The history is recorded as a trace and judged by a monitor.
 */
module Orchestrator {
  import opened Prelude
  import opened Text

  type byte = b: nat | b < 256

  type Bytes = seq<byte>

  datatype Event =
    | ChatPartial(fragment: string, seqNo: nat)
    | AudioChunk(seqNo: nat, isLast: bool, duration: nat)
    | VisemeChunk(seqNo: nat, offset: nat)
    | Interrupt
    // not sent to the client:
    | Cancelled                    // someone cancelled the token here
    | Tried(text: string)          // a text was handed to synthesis here
    | Synthesized(audio: Bytes)    // and this audio came back

  // ---- Audio ----

  datatype Mime = Mpeg | Wav | Ogg | OctetStream

  const ID3: Bytes := [0x49, 0x44, 0x33]
  const RIFF: Bytes := [0x52, 0x49, 0x46, 0x46]
  const OGGS: Bytes := [0x4F, 0x67, 0x67, 0x53]

  /** The mime type by magic bytes; None when the code indexes past a lone 0xFF byte. */
  function DetectMime(audio: Bytes): Option<Mime> {
    if audio == [] then Some(Wav)
    else if ID3 <= audio then Some(Mpeg)
    else if audio[0] == 0xFF && |audio| == 1 then None
    else if audio[0] == 0xFF && 0xE0 <= audio[1] then Some(Mpeg)
    else if RIFF <= audio then Some(Wav)
    else if OGGS <= audio then Some(Ogg)
    else Some(OctetStream)
  }

  function EstimateDuration(size: nat, mime: Mime): nat {
    if size == 0 then 0
    else match mime
      case Mpeg => size * 8 / 128
      case Wav => Max(0, size - 44) * 1000 / 44100
      case _ => size / 32
  }

  /** Sniffing fails on a lone 0xFF byte and on nothing else. */
  lemma SniffingFails(audio: Bytes)
    ensures DetectMime(audio).None? <==> audio == [0xFF]
  {}

  /** The mime type goes by how the audio begins, and to nothing else. */
  lemma MimeIs(audio: Bytes)
    ensures DetectMime(audio) == Some(Mpeg) <==>
      (|audio| >= 3 && audio[..3] == [0x49, 0x44, 0x33]) || (|audio| >= 2 && audio[0] == 0xFF && audio[1] >= 0xE0)
    ensures DetectMime(audio) == Some(Wav) <==> audio == [] || (|audio| >= 4 && audio[..4] == [0x52, 0x49, 0x46, 0x46])
    ensures DetectMime(audio) == Some(Ogg) <==> |audio| >= 4 && audio[..4] == [0x4F, 0x67, 0x67, 0x53]
  {
    assert ID3 <= audio <==> |audio| >= 3 && audio[..3] == ID3;
    assert RIFF <= audio <==> |audio| >= 4 && audio[..4] == RIFF;
    assert OGGS <= audio <==> |audio| >= 4 && audio[..4] == OGGS;
    assert ID3 <= audio ==> audio[0] == ID3[0];
    assert RIFF <= audio ==> audio[0] == RIFF[0];
    assert OGGS <= audio ==> audio[0] == OGGS[0];
  }

  /** Whole milliseconds: 16 bytes each of MPEG, 44100 bytes a second of WAV behind its header, 32 bytes otherwise. */
  lemma DurationIs(size: nat)
    ensures var d := EstimateDuration(size, Mpeg); d * 16 <= size < (d + 1) * 16
    ensures var d := EstimateDuration(size, Wav);
      if size <= 44 then d == 0 else d * 44100 <= (size - 44) * 1000 < (d + 1) * 44100
    ensures var d := EstimateDuration(size, Ogg); d * 32 <= size < (d + 1) * 32
    ensures EstimateDuration(size, OctetStream) == EstimateDuration(size, Ogg)
  {}

  /** The length announced for some audio. */
  function DurationOf(audio: Bytes): Option<nat> {
    match DetectMime(audio)
    case None => None
    case Some(mime) => Some(EstimateDuration(|audio|, mime))
  }

  // ---- The monitor ----

  /**
   What can be told from the trace so far. `ok` is lost for good at the first event that breaks the protocol.
   */
  datatype Monitor = Monitor(
    ok: bool,
    text: string,                  // the fragments sent, joined
    lastPartial: nat,
    lastAudio: nat,
    offset: nat,                   // the total duration of the pairs sent
    awaiting: Option<(nat, nat)>,  // the audio chunk whose viseme chunk is due: its number and duration
    sawLast: bool,
    cancelled: bool,
    begunAfter: nat,               // audio chunks sent after the cancellation
    interrupted: bool,
    tried: seq<string>,
    audios: seq<Bytes>,            // what synthesis returned, for those texts it did not fail on
    pairs: nat)                    // pairs of chunks sent in full

  /** The token as the turn finds it. */
  datatype Origin = Origin(seqNo: nat, cancelled: bool)

  function Begin(start: Origin): Monitor {
    Monitor(true, "", start.seqNo, start.seqNo, 0, None, false, start.cancelled, 0, false, [], [], 0)
  }

  function Watch(start: Origin, trace: seq<Event>): Monitor {
    if trace == [] then Begin(start)
    else Observe(Watch(start, trace[..|trace| - 1]), trace[|trace| - 1])
  }

  /** Is this the length of the audio that was synthesized last? */
  predicate Fits(audios: seq<Bytes>, duration: nat) {
    audios != [] && DurationOf(audios[|audios| - 1]) == Some(duration)
  }

  function Observe(m: Monitor, e: Event): Monitor {
    match e
    case ChatPartial(fragment, seqNo) =>
      m.(ok := m.ok && m.awaiting.None? && seqNo == m.lastPartial + 1 && !m.cancelled && !m.sawLast,
         text := m.text + fragment, lastPartial := seqNo)
    case AudioChunk(seqNo, isLast, duration) =>
      m.(ok := m.ok && m.awaiting.None? && m.lastAudio < seqNo && !m.sawLast && !m.interrupted
               && (m.cancelled ==> m.begunAfter == 0) && Fits(m.audios, duration),
         lastAudio := seqNo, awaiting := Some((seqNo, duration)), sawLast := isLast,
         begunAfter := m.begunAfter + if m.cancelled then 1 else 0)
    case VisemeChunk(seqNo, offset) =>
      m.(ok := m.ok && m.awaiting.Some? && m.awaiting.value.0 == seqNo && offset == m.offset,
         offset := m.offset + (if m.awaiting.Some? then m.awaiting.value.1 else 0), awaiting := None,
         pairs := m.pairs + 1)
    case Interrupt =>
      m.(ok := m.ok && m.cancelled && m.awaiting.None? && !m.interrupted, interrupted := true)
    case Cancelled =>
      // a cancellation between a pair's two halves leaves only the rest of that pair to send
      m.(ok := m.ok && !m.cancelled, cancelled := true, begunAfter := if m.awaiting.Some? then 1 else 0)
    case Tried(text) =>
      m.(ok := m.ok && !m.cancelled && m.awaiting.None?, tried := m.tried + [text])
    case Synthesized(audio) =>
      m.(ok := m.ok && m.awaiting.None? && |m.audios| < |m.tried|, audios := m.audios + [audio])
  }

  lemma WatchSnoc(start: Origin, trace: seq<Event>, e: Event)
    ensures Watch(start, trace + [e]) == Observe(Watch(start, trace), e)
  {
    assert (trace + [e])[..|trace|] == trace;
  }

  // ---- What an accepted trace means ----

  function DurationIn(e: Event): nat { if e.AudioChunk? then e.duration else 0 }

  function Durations(trace: seq<Event>): nat {
    if trace == [] then 0 else Durations(trace[..|trace| - 1]) + DurationIn(trace[|trace| - 1])
  }

  function PartialIn(e: Event): seq<string> { if e.ChatPartial? then [e.fragment] else [] }

  function Partials(trace: seq<Event>): seq<string> {
    if trace == [] then [] else Partials(trace[..|trace| - 1]) + PartialIn(trace[|trace| - 1])
  }

  function LastChunks(trace: seq<Event>): nat {
    if trace == [] then 0
    else LastChunks(trace[..|trace| - 1]) + if trace[|trace| - 1].AudioChunk? && trace[|trace| - 1].isLast then 1 else 0
  }

  function Audios(trace: seq<Event>): nat {
    if trace == [] then 0 else Audios(trace[..|trace| - 1]) + if trace[|trace| - 1].AudioChunk? then 1 else 0
  }

  /** What the monitor still owes a viseme chunk for. */
  function Owed(m: Monitor): nat { if m.awaiting.Some? then m.awaiting.value.1 else 0 }

  /** What one accepted event does. */
  lemma ObserveCounts(m: Monitor, e: Event)
    requires Observe(m, e).ok
    ensures var m' := Observe(m, e);
      && m.ok
      && m'.lastPartial == m.lastPartial + |PartialIn(e)| && m'.text == m.text + Concat(PartialIn(e))
      && m'.offset + Owed(m') == m.offset + Owed(m) + DurationIn(e)
      && (e.AudioChunk? ==> !m.sawLast && m'.sawLast == e.isLast) && (!e.AudioChunk? ==> m'.sawLast == m.sawLast)
  {
    hide Fits;
    ConcatOne(e);
    assert m.text + "" == m.text;
  }

  lemma ConcatOne(e: Event)
    ensures Concat(PartialIn(e)) == if e.ChatPartial? then e.fragment else ""
  {}

  lemma {:induction false} AcceptedPrefix(start: Origin, trace: seq<Event>, i: nat)
    requires Watch(start, trace).ok && i <= |trace|
    ensures Watch(start, trace[..i]).ok
  {
    hide Observe;
    if i < |trace| {
      OkBefore(Watch(start, trace[..|trace| - 1]), trace[|trace| - 1]);
      AcceptedPrefix(start, trace[..|trace| - 1], i);
      assert trace[..|trace| - 1][..i] == trace[..i];
    } else {
      assert trace[..i] == trace;
    }
  }

  lemma OkBefore(m: Monitor, e: Event)
    ensures Observe(m, e).ok ==> m.ok
  {}

  /** An accepted trace numbers its partials one by one, joins to its text, and has at most one last chunk. */
  lemma {:induction false} PartialsAreNumbered(start: Origin, trace: seq<Event>)
    requires Watch(start, trace).ok
    ensures var m := Watch(start, trace);
      && m.lastPartial == start.seqNo + |Partials(trace)| && m.text == Concat(Partials(trace))
      && LastChunks(trace) == if m.sawLast then 1 else 0
  {
    hide Concat, Observe, PartialIn;
    if trace == [] {
      NothingSaid();
    } else {
      var before, e := trace[..|trace| - 1], trace[|trace| - 1];
      ObserveCounts(Watch(start, before), e);
      PartialsAreNumbered(start, before);
      ConcatAppend(Partials(before), PartialIn(e));
    }
  }

  lemma NothingSaid()
    ensures Concat([]) == ""
  {}

  /** The offset of an accepted trace, with the duration still owed for, is the duration of all its audio. */
  lemma {:induction false} OffsetsAddUp(start: Origin, trace: seq<Event>)
    requires Watch(start, trace).ok
    ensures var m := Watch(start, trace); m.offset + Owed(m) == Durations(trace)
  {
    hide Observe, DurationIn, Owed;
    if trace == [] {
      assert Owed(Begin(start)) == 0 by { NothingOwed(start); }
    } else {
      ObserveCounts(Watch(start, trace[..|trace| - 1]), trace[|trace| - 1]);
      OffsetsAddUp(start, trace[..|trace| - 1]);
    }
  }

  lemma NothingOwed(start: Origin)
    ensures Owed(Begin(start)) == 0
  {}

  /**
   In an accepted trace every viseme chunk follows an audio chunk of the same number, with nothing but a cancellation
   between them, and its offset is the total duration of the audio chunks before that one.
   */
  lemma {:induction false} VisemesFollowAudio(start: Origin, trace: seq<Event>, i: nat) returns (j: nat)
    requires Watch(start, trace).ok && i < |trace| && trace[i].VisemeChunk?
    ensures j < i && trace[j].AudioChunk? && trace[j].seqNo == trace[i].seqNo
    ensures trace[i].offset == Durations(trace[..j])
    ensures forall h | j < h < i :: trace[h].Cancelled?
  {
    hide Observe, Durations;
    var before := trace[..i];
    AcceptedPrefix(start, trace, i + 1);
    assert trace[..i + 1][..i] == before;
    VisemeIsDue(Watch(start, before), trace[i]);
    OffsetsAddUp(start, before);
    j := AwaitedAudio(start, before);
    assert before[..j] == trace[..j];
  }

  lemma VisemeIsDue(m: Monitor, e: Event)
    requires Observe(m, e).ok && e.VisemeChunk?
    ensures m.ok && m.awaiting.Some? && m.awaiting.value.0 == e.seqNo && m.offset == e.offset
  {
    hide Fits;
  }

  /** While a viseme chunk is due, only a cancellation leaves it due. */
  lemma StillDue(m: Monitor, e: Event)
    requires Observe(m, e).ok && Observe(m, e).awaiting.Some?
    ensures m.ok
    ensures if e.AudioChunk? then Observe(m, e).awaiting == Some((e.seqNo, e.duration))
            else e.Cancelled? && m.awaiting == Observe(m, e).awaiting
  {
    hide Fits;
  }

  /** The audio chunk an accepted trace is still owing a viseme chunk for. */
  lemma {:induction false} AwaitedAudio(start: Origin, trace: seq<Event>) returns (j: nat)
    requires Watch(start, trace).ok && Watch(start, trace).awaiting.Some?
    ensures j < |trace| && trace[j].AudioChunk?
    ensures Watch(start, trace).awaiting == Some((trace[j].seqNo, trace[j].duration))
    ensures Durations(trace) == Durations(trace[..j]) + trace[j].duration
    ensures forall h | j < h < |trace| :: trace[h].Cancelled?
  {
    hide Observe;
    assert trace != [] by { NothingDue(start); }
    var last := |trace| - 1;
    StillDue(Watch(start, trace[..last]), trace[last]);
    if trace[last].AudioChunk? {
      j := last;
    } else {
      j := AwaitedAudio(start, trace[..last]);
      assert trace[..last][..j] == trace[..j];
    }
  }

  lemma NothingDue(start: Origin)
    ensures Watch(start, []).awaiting.None?
  {}

  /**
   In an accepted trace every audio chunk has its viseme chunk, at `j`, with nothing but a cancellation between
   them; unless it is the last thing sent and its viseme chunk is still due.
   */
  lemma {:induction false} AudioIsAnswered(start: Origin, trace: seq<Event>, i: nat) returns (j: nat)
    requires Watch(start, trace).ok && i < |trace| && trace[i].AudioChunk?
    ensures i < j <= |trace| && forall h | i < h < j :: trace[h].Cancelled?
    ensures if j < |trace| then trace[j].VisemeChunk? && trace[j].seqNo == trace[i].seqNo
            else Watch(start, trace).awaiting == Some((trace[i].seqNo, trace[i].duration))
  {
    hide Observe;
    var last := |trace| - 1;
    var before, e := trace[..last], trace[last];
    if i == last {
      AudioIsDue(Watch(start, before), e);
      j := |trace|;
    } else {
      OkBefore(Watch(start, before), e);
      j := AudioIsAnswered(start, before, i);
      if j == last {
        DueGoesOn(Watch(start, before), e);
        j := if e.VisemeChunk? then last else |trace|;
      }
    }
  }

  lemma AudioIsDue(m: Monitor, e: Event)
    requires e.AudioChunk?
    ensures Observe(m, e).awaiting == Some((e.seqNo, e.duration))
  {}

  lemma DueGoesOn(m: Monitor, e: Event)
    requires Observe(m, e).ok && m.awaiting.Some?
    ensures (e.VisemeChunk? && e.seqNo == m.awaiting.value.0) || (e.Cancelled? && Observe(m, e).awaiting == m.awaiting)
  {
    hide Fits;
  }

  lemma NumbersGrow(m: Monitor, e: Event)
    requires Observe(m, e).ok
    ensures m.ok && m.lastAudio <= Observe(m, e).lastAudio
    ensures e.AudioChunk? ==> m.lastAudio < e.seqNo == Observe(m, e).lastAudio
  {
    hide Fits;
  }

  lemma {:induction false} NumbersCovered(start: Origin, trace: seq<Event>, i: nat)
    requires Watch(start, trace).ok && i < |trace| && trace[i].AudioChunk?
    ensures trace[i].seqNo <= Watch(start, trace).lastAudio
  {
    hide Observe;
    var last := |trace| - 1;
    NumbersGrow(Watch(start, trace[..last]), trace[last]);
    if i < last {
      NumbersCovered(start, trace[..last], i);
    }
  }

  /** In an accepted trace the numbers of audio chunks strictly increase. */
  lemma {:induction false} AudioNumbersIncrease(start: Origin, trace: seq<Event>, i: nat, j: nat)
    requires Watch(start, trace).ok && i < j < |trace| && trace[i].AudioChunk? && trace[j].AudioChunk?
    ensures trace[i].seqNo < trace[j].seqNo
  {
    hide Observe;
    AcceptedPrefix(start, trace, j + 1);
    assert trace[..j + 1][..j] == trace[..j];
    NumbersGrow(Watch(start, trace[..j]), trace[j]);
    NumbersCovered(start, trace[..j], i);
  }

  lemma CancelStep(m: Monitor, e: Event)
    requires Observe(m, e).ok && m.cancelled
    ensures var m' := Observe(m, e);
      && m.ok && m'.cancelled && m'.begunAfter == m.begunAfter + (if e.AudioChunk? then 1 else 0)
      && (m.begunAfter <= 1 ==> m'.begunAfter <= 1)
  {
    hide Fits;
  }

  /**
   In an accepted trace at most one audio chunk follows the cancellation, at `c`, and none if that fell between the
   two halves of a pair.
   */
  lemma {:induction false} OnePairAfterCancel(start: Origin, trace: seq<Event>, c: nat)
    requires Watch(start, trace).ok && c < |trace| && trace[c].Cancelled?
    ensures var owing := if Watch(start, trace[..c]).awaiting.Some? then 1 else 0;
      && Watch(start, trace).cancelled && Watch(start, trace).begunAfter <= 1
      && Watch(start, trace).begunAfter == owing + Audios(trace) - Audios(trace[..c])
      && Audios(trace) - Audios(trace[..c]) <= 1 - owing
  {
    hide Observe;
    var last := |trace| - 1;
    if c == last {
      CancelNow(Watch(start, trace[..last]), trace[last]);
    } else {
      assert trace[..last][..c] == trace[..c];
      OkBefore(Watch(start, trace[..last]), trace[last]);
      OnePairAfterCancel(start, trace[..last], c);
      CancelStep(Watch(start, trace[..last]), trace[last]);
    }
  }

  lemma CancelNow(m: Monitor, e: Event)
    requires e.Cancelled?
    ensures Observe(m, e).cancelled && Observe(m, e).begunAfter == if m.awaiting.Some? then 1 else 0
  {}

  /** A turn on whose one text synthesis returns a lone 0xFF byte: nothing follows, and sniffing fails. */
  lemma LoneByteTurn() returns (trace: seq<Event>)
    ensures var m := Watch(Origin(0, false), trace);
      && m.ok && m.text == "Hi." && m.tried == ["Hi."] && m.audios == [[0xFF]] && DurationOf([0xFF]).None?
  {
    hide DurationOf;
    var start := Origin(0, false);
    var said := [ChatPartial("Hi.", 1)];
    WatchSnoc(start, [], ChatPartial("Hi.", 1));
    WatchSnoc(start, said, Tried("Hi."));
    WatchSnoc(start, said + [Tried("Hi.")], Synthesized([0xFF]));
    assert [] + [ChatPartial("Hi.", 1)] == said;
    trace := said + [Tried("Hi.")] + [Synthesized([0xFF])];
    NoDuration();
  }

  lemma NoDuration()
    ensures DurationOf([0xFF]).None?
  {}

  const SENTENCE_ENDS: set<char> := {'.', '!', '?', '\U{3002}', '\U{FF01}', '\U{FF1F}'}

  predicate IsSentenceBoundary(text: string) {
    var stripped := RStrip(text);
    stripped != "" && stripped[|stripped| - 1] in SENTENCE_ENDS
  }

  /** Full stop, exclamation and question mark, in both widths. */
  const MARKS := ".!?\U{3002}\U{FF01}\U{FF1F}"

  /** A text is at a sentence boundary when one of six marks is the last thing in it, but for whitespace. */
  lemma BoundaryAfterMark(body: string, mark: char, tail: string)
    requires mark in MARKS && Blanks(tail)
    ensures IsSentenceBoundary(body + [mark] + tail)
  {
    RStripTail(body + [mark], tail);
  }

  lemma {:induction false} RStripTail(s: string, tail: string)
    requires s != "" && !IsSpace(s[|s| - 1]) && Blanks(tail)
    ensures RStrip(s + tail) == s
  {
    hide IsSpace;
    if tail == "" {
      assert s + tail == s;
    } else {
      var last := |tail| - 1;
      assert (s + tail)[..|s + tail| - 1] == s + tail[..last] && (s + tail)[|s + tail| - 1] == tail[last];
      RStripTail(s, tail[..last]);
    }
  }

  lemma {:induction false} MarkAtBoundary(text: string) returns (body: string, mark: char, tail: string)
    requires IsSentenceBoundary(text)
    ensures text == body + [mark] + tail && mark in MARKS && Blanks(tail)
  {
    hide IsSpace;
    tail := RStripCuts(text);
    var stripped := RStrip(text);
    body, mark := stripped[..|stripped| - 1], stripped[|stripped| - 1];
  }

  lemma {:induction false} BoundarySpeaks(text: string)
    requires IsSentenceBoundary(text)
    ensures Strip(text) != ""
  {
    hide Strip, RStrip;
    var stripped := RStrip(text);
    EraseRStrip(text);
    StripTrims(text);
    LastIsKept(stripped);
    NothingLeft();
  }

  lemma LastIsKept(s: string)
    requires s != "" && !IsSpace(s[|s| - 1])
    ensures Erase(s) != ""
  {
    var k := |s| - 1;
    assert s == s[..k] + [s[k]];
    EraseAppend(s[..k], [s[k]]);
  }

  // ---- Sentences ----

  /** The sentences complete so far, stripped, and the text still waiting for its sentence to end. */
  datatype Split = Split(done: seq<string>, rest: string)

  function SplitUp(fragments: seq<string>): Split {
    if fragments == [] then Split([], "")
    else
      var before := SplitUp(fragments[..|fragments| - 1]);
      var buffer := before.rest + fragments[|fragments| - 1];
      if IsSentenceBoundary(buffer) then Split(before.done + [Strip(buffer)], "") else Split(before.done, buffer)
  }

  /** The texts a whole turn hands to synthesis. */
  function Sentences(fragments: seq<string>): seq<string> {
    var split := SplitUp(fragments);
    split.done + if Strip(split.rest) == "" then [] else [Strip(split.rest)]
  }

  lemma SplitSnoc(fragments: seq<string>, i: nat)
    requires i < |fragments|
    ensures var before, now := SplitUp(fragments[..i]), SplitUp(fragments[..i + 1]);
      var buffer := before.rest + fragments[i];
      now == if IsSentenceBoundary(buffer) then Split(before.done + [Strip(buffer)], "") else Split(before.done, buffer)
  {
    hide IsSentenceBoundary, Strip;
    assert fragments[..i + 1][..i] == fragments[..i];
  }

  lemma {:induction false} SplitGrows(fragments: seq<string>, i: nat)
    requires i <= |fragments|
    ensures SplitUp(fragments[..i]).done <= Sentences(fragments)
    decreases |fragments| - i
  {
    hide IsSentenceBoundary, Strip;
    if i < |fragments| {
      SplitSnoc(fragments, i);
      SplitGrows(fragments, i + 1);
    } else {
      assert fragments[..i] == fragments;
    }
  }

  /** The sentences are the text, up to whitespace, and each is handed over as soon as it is complete. */
  lemma {:induction false} SentencesAreText(fragments: seq<string>)
    ensures Erase(Concat(Sentences(fragments))) == Erase(Concat(fragments))
    ensures !IsSentenceBoundary(SplitUp(fragments).rest)
    ensures forall s | s in SplitUp(fragments).done :: s != "" && Trimmed(s) && IsSentenceBoundary(s)
  {
    hide Erase, Concat, Strip, IsSentenceBoundary, SplitUp, Trimmed;
    var split := SplitUp(fragments);
    SplitIsText(fragments);
    StripTrims(split.rest);
    NothingLeft();
    EraseConcatSnoc(split.done, Strip(split.rest));
    assert split.done + [] == split.done;
  }

  lemma {:induction false} SplitIsText(fragments: seq<string>)
    ensures Erase(Concat(SplitUp(fragments).done)) + Erase(SplitUp(fragments).rest) == Erase(Concat(fragments))
    ensures !IsSentenceBoundary(SplitUp(fragments).rest)
    ensures forall s | s in SplitUp(fragments).done :: s != "" && Trimmed(s) && IsSentenceBoundary(s)
  {
    hide Erase, Concat, Strip, IsSentenceBoundary, Trimmed;
    NothingLeft();
    NothingYet(fragments);
    if fragments == [] {
      NoBoundary();
    } else {
      var i := |fragments| - 1;
      var before, buffer := SplitUp(fragments[..i]), SplitUp(fragments[..i]).rest + fragments[i];
      SplitIsText(fragments[..i]);
      Prefixes(fragments, i);
      assert fragments[..i + 1] == fragments;
      EraseAppend(Concat(fragments[..i]), fragments[i]);
      EraseAppend(before.rest, fragments[i]);
      Assoc(Erase(Concat(before.done)), Erase(before.rest), Erase(fragments[i]));
      StripTrims(buffer);
      EraseConcatSnoc(before.done, Strip(buffer));
      if IsSentenceBoundary(buffer) {
        BoundarySpeaks(buffer);
        BoundaryStripped(buffer);
        assert Erase(buffer) + "" == Erase(buffer);
        NoBoundary();
      }
    }
  }

  lemma NoBoundary()
    ensures !IsSentenceBoundary("")
  {}

  lemma MarksShow(mark: char)
    ensures mark in MARKS ==> !IsSpace(mark)
  {}

  lemma BoundaryStripped(text: string)
    requires IsSentenceBoundary(text)
    ensures IsSentenceBoundary(Strip(text))
  {
    hide IsSpace, Strip, RStrip, LStrip;
    var body, mark, tail := MarkAtBoundary(text);
    var pre, post := StripCuts(text);
    BoundarySpeaks(text);
    var s := Strip(text);
    MarksShow(mark);
    SameLast(body, mark, tail, pre, s, post);
    BoundaryAfterMark(s[..|s| - 1], mark, "");
    assert s[..|s| - 1] + [mark] + "" == s;
  }

  lemma OnlyBlanksAfter(body: string, mark: char, tail: string)
    requires Blanks(tail)
    ensures var text := body + [mark] + tail; forall k | |body| < k < |text| :: IsSpace(text[k])
  {
    var text := body + [mark] + tail;
    forall k | |body| < k < |text|
      ensures IsSpace(text[k])
    {
      assert text[k] == tail[k - |body| - 1];
    }
  }

  /** The last character that is no whitespace is the same however the whitespace behind it is cut off. */
  lemma SameLast(body: string, mark: char, tail: string, pre: string, s: string, post: string)
    requires body + [mark] + tail == pre + s + post && Blanks(tail) && Blanks(post) && !IsSpace(mark)
    requires s != "" && !IsSpace(s[|s| - 1])
    ensures s[|s| - 1] == mark
  {
    hide IsSpace, Blanks;
    var text, k := body + [mark] + tail, |s| - 1;
    var head := pre + s[..k];
    assert text == head + [s[k]] + post;
    OnlyBlanksAfter(body, mark, tail);
    OnlyBlanksAfter(head, s[k], post);
    assert text[|body|] == mark && text[|head|] == s[k];
  }

  // ---- What the steps of a turn keep ----

  /** The monitor after an await, during which the token may have been cancelled. */
  function Perhaps(m: Monitor, cancelled: bool): Monitor { if cancelled then Observe(m, Cancelled) else m }

  /** The monitor agrees with the turn's own variables, between two sentences. */
  predicate Calm(m: Monitor, now: Origin, fullText: string, offset: nat) {
    && m.ok && m.text == fullText && m.offset == offset && m.awaiting.None? && !m.interrupted
    && m.cancelled == now.cancelled && m.lastAudio <= now.seqNo
    && m.begunAfter <= (if m.cancelled then 1 else 0)
    && |m.audios| <= |m.tried|
  }

  predicate SameTexts(m: Monitor, m': Monitor) {
    m'.tried == m.tried && m'.lastPartial == m.lastPartial
  }

  /** What the k-th call of synthesis returns for a text. */
  datatype Speech = Speech(call: (nat, string) -> Option<Bytes>)

  /** The audio synthesis returns for some texts, handed to it one after the other. */
  function Heard(tts: Speech, tried: seq<string>): seq<Bytes> {
    if tried == [] then []
    else
      var last := |tried| - 1;
      Heard(tts, tried[..last]) + (match tts.call(last, tried[last]) case None => [] case Some(audio) => [audio])
  }

  lemma HeardSnoc(tts: Speech, tried: seq<string>, text: string)
    ensures Heard(tts, tried + [text])
         == Heard(tts, tried) + (match tts.call(|tried|, text) case None => [] case Some(audio) => [audio])
  {
    assert (tried + [text])[..|tried|] == tried;
  }

  lemma AwaitCalm(m: Monitor, now: Origin, later: bool, fullText: string, offset: nat)
    requires Calm(m, now, fullText, offset) && (now.cancelled ==> later)
    ensures var m' := Perhaps(m, later && !now.cancelled);
      && Calm(m', now.(cancelled := later), fullText, offset) && SameTexts(m, m')
      && m'.audios == m.audios && m'.lastAudio == m.lastAudio && m'.sawLast == m.sawLast && m'.pairs == m.pairs
      && (m.begunAfter == 0 ==> m'.begunAfter == 0)
  {
    hide Fits;
  }

  lemma TryCalm(m: Monitor, now: Origin, text: string, fullText: string, offset: nat)
    requires Calm(m, now, fullText, offset) && !now.cancelled
    ensures var m' := Observe(m, Tried(text));
      && Calm(m', now, fullText, offset) && m' == m.(tried := m.tried + [text]) && m'.begunAfter == 0
      && |m'.audios| < |m'.tried|
  {
    hide Fits;
  }

  lemma HearCalm(m: Monitor, now: Origin, audio: Bytes, fullText: string, offset: nat)
    requires Calm(m, now, fullText, offset) && |m.audios| < |m.tried|
    ensures var m' := Observe(m, Synthesized(audio));
      Calm(m', now, fullText, offset) && m' == m.(audios := m.audios + [audio])
  {
    hide Fits;
  }

  lemma SayCalm(m: Monitor, now: Origin, fragment: string, n: nat, fullText: string, offset: nat)
    requires Calm(m, now, fullText, offset) && !now.cancelled && !m.sawLast && n == m.lastPartial + 1 && now.seqNo < n
    ensures var m' := Observe(m, ChatPartial(fragment, n));
      && Calm(m', Origin(n, false), fullText + fragment, offset) && m'.lastAudio < n
      && m' == m.(text := fullText + fragment, lastPartial := n)
  {
    hide Fits;
  }

  /** A pair of chunks, either of whose sends may see the cancellation. */
  lemma PairCalm(m: Monitor, now: Origin, isLast: bool, d: nat, between: bool, later: bool,
                 fullText: string, offset: nat)
    requires Calm(m, now, fullText, offset) && m.lastAudio < now.seqNo && !m.sawLast && m.begunAfter == 0
    requires Fits(m.audios, d) && (now.cancelled ==> between) && (between ==> later)
    ensures var half := Perhaps(Observe(m, AudioChunk(now.seqNo, isLast, d)), between && !now.cancelled);
      var m' := Perhaps(Observe(half, VisemeChunk(now.seqNo, offset)), later && !between);
      && Calm(m', now.(cancelled := later), fullText, offset + d) && SameTexts(m, m')
      && m'.audios == m.audios && m'.sawLast == isLast && m'.pairs == m.pairs + 1 && m'.lastAudio == now.seqNo
  {
    hide Fits;
    var full := Observe(m, AudioChunk(now.seqNo, isLast, d));
    assert full.ok && full.awaiting == Some((now.seqNo, d)) && full.begunAfter == if now.cancelled then 1 else 0;
    var half := Perhaps(full, between && !now.cancelled);
    assert half.ok && half.awaiting == full.awaiting && half.offset == offset && half.cancelled == between;
    assert half.begunAfter == if between then 1 else 0;
  }

  /** An interrupt ends the turn in good order. */
  lemma InterruptEnds(m: Monitor, now: Origin, later: bool, fullText: string, offset: nat)
    requires Calm(m, now, fullText, offset) && now.cancelled
    ensures var m' := Perhaps(Observe(m, Interrupt), later && !now.cancelled);
      m' == m.(interrupted := true)
  {
    hide Fits;
  }

  // ---- The turn ----

  class TurnToken {
    var cancelled: bool
    var seqNo: nat

    constructor ()
      ensures !cancelled && seqNo == 0
    {
      cancelled, seqNo := false, 0;
    }

    method Cancel()
      modifies this`cancelled
      ensures cancelled
    {
      cancelled := true;
    }

    method NextSeq() returns (n: nat)
      modifies this`seqNo
      ensures n == seqNo == old(seqNo) + 1
    {
      seqNo := seqNo + 1;
      n := seqNo;
    }
  }

  class StreamingTurnOrchestrator {
    const tts: Speech
    ghost const start: Origin
    var trace: seq<Event>
    var calls: nat

    ghost function Seen(): Monitor
      reads this
    {
      Watch(start, trace)
    }

    constructor (tts: Speech, ghost start: Origin)
      ensures this.tts == tts && this.start == start && trace == [] && calls == 0
    {
      this.tts := tts;
      this.start := start;
      trace, calls := [], 0;
    }

    method Log(e: Event)
      modifies this`trace
      ensures trace == old(trace) + [e] && Seen() == Observe(old(Seen()), e)
    {
      WatchSnoc(start, trace, e);
      trace := trace + [e];
    }

    /** Any await: the token may be cancelled meanwhile. */
    method Await(token: TurnToken)
      modifies this`trace, token`cancelled
      ensures Seen() == Perhaps(old(Seen()), token.cancelled && !old(token.cancelled))
      ensures old(token.cancelled) ==> token.cancelled
    {
      var now: bool := *;
      if now && !token.cancelled {
        token.Cancel();
        Log(Cancelled);
      }
    }

    method Send(token: TurnToken, e: Event)
      modifies this`trace, token`cancelled
      ensures Seen() == Perhaps(Observe(old(Seen()), e), token.cancelled && !old(token.cancelled))
      ensures old(token.cancelled) ==> token.cancelled
    {
      Log(e);
      Await(token);
    }

    ghost predicate Steady(token: TurnToken, fullText: string, offset: nat)
      reads this, token
    {
      && Calm(Seen(), Origin(token.seqNo, token.cancelled), fullText, offset)
      && calls == |Seen().tried| && Seen().audios == Heard(tts, Seen().tried)
    }

    /**
     Synthesize one text and send its pair of chunks. Nothing is sent when the turn is already cancelled or synthesis
     fails; any other audio is sent, with the given number. `raised` reports the one error that escapes, from sniffing:
     it does exactly when synthesis returned a lone 0xFF byte.
     */
    method SynthesizeAndSend(text: string, seqNo: nat, timeOffset: nat, token: TurnToken, isLast: bool,
                             ghost fullText: string)
      returns (newOffset: nat, raised: bool)
      requires Steady(token, fullText, timeOffset) && !Seen().sawLast
      requires Seen().lastAudio < seqNo == token.seqNo
      modifies this`trace, this`calls, token`cancelled
      ensures Steady(token, fullText, newOffset)
      ensures old(token.cancelled) ==> token.cancelled && Seen() == old(Seen()) && !raised
      ensures Seen().lastPartial == old(Seen()).lastPartial
      ensures Seen().tried == old(Seen()).tried + if old(token.cancelled) then [] else [text]
      ensures !old(token.cancelled) ==>
        match tts.call(|old(Seen()).tried|, text)
        case None => !raised && Unsent(old(Seen()), Seen())
        case Some(audio) =>
          && (raised <==> audio == [0xFF])
          && if raised then Unsent(old(Seen()), Seen())
             else Seen().pairs == old(Seen()).pairs + 1 && Seen().lastAudio == seqNo && Seen().sawLast == isLast
    {
      hide Observe, Perhaps, DetectMime, EstimateDuration, Watch, Heard;
      newOffset, raised := timeOffset, false;
      if token.cancelled {
        return;
      }
      var audio := Synthesize(text, timeOffset, token, fullText);
      if audio.None? {
        return;
      }
      SniffingFails(audio.value);
      var mime := DetectMime(audio.value);
      if mime.None? {
        raised := true;
        return;
      }
      var duration := EstimateDuration(|audio.value|, mime.value);
      ghost var m, now := Seen(), Origin(token.seqNo, token.cancelled);
      Send(token, AudioChunk(seqNo, isLast, duration));
      ghost var between := token.cancelled;
      Send(token, VisemeChunk(seqNo, timeOffset));
      newOffset := timeOffset + duration;
      PairCalm(m, now, isLast, duration, between, token.cancelled, fullText, timeOffset);
    }

    /** Hand a text to synthesis and wait. */
    method TryText(text: string, ghost timeOffset: nat, token: TurnToken, ghost fullText: string)
      requires Calm(Seen(), Origin(token.seqNo, token.cancelled), fullText, timeOffset) && !token.cancelled
      modifies this`trace, token`cancelled
      ensures Calm(Seen(), Origin(token.seqNo, token.cancelled), fullText, timeOffset) && Seen().begunAfter == 0
      ensures Seen().tried == old(Seen()).tried + [text]
      ensures Seen().audios == old(Seen()).audios && |Seen().audios| < |Seen().tried|
      ensures Seen().lastPartial == old(Seen()).lastPartial && Unsent(old(Seen()), Seen())
    {
      hide Observe, Perhaps, Calm, Watch;
      ghost var m, now := Seen(), Origin(token.seqNo, token.cancelled);
      TryCalm(m, now, text, fullText, timeOffset);
      Log(Tried(text));
      AwaitCalm(Seen(), now, false, fullText, timeOffset);
      AwaitCalm(Seen(), now, true, fullText, timeOffset);
      Await(token);
    }

    /** What came back: some audio, or a failure. */
    method Synthesize(text: string, ghost timeOffset: nat, token: TurnToken, ghost fullText: string)
      returns (audio: Option<Bytes>)
      requires Steady(token, fullText, timeOffset) && !token.cancelled
      modifies this`trace, this`calls, token`cancelled
      ensures Steady(token, fullText, timeOffset) && Seen().begunAfter == 0
      ensures audio == tts.call(|old(Seen()).tried|, text)
      ensures audio.Some? ==> Seen().audios != [] && Seen().audios[|Seen().audios| - 1] == audio.value
      ensures Seen().tried == old(Seen()).tried + [text]
      ensures Seen().lastPartial == old(Seen()).lastPartial && Unsent(old(Seen()), Seen())
    {
      hide Observe, Perhaps, Calm, Watch, Heard;
      HeardSnoc(tts, Seen().tried, text);
      audio := tts.call(calls, text);
      calls := calls + 1;
      TryText(text, timeOffset, token, fullText);
      if audio.Some? {
        HearCalm(Seen(), Origin(token.seqNo, token.cancelled), audio.value, fullText, timeOffset);
        Log(Synthesized(audio.value));
      }
    }

    /**
     A whole turn. Whatever is cancelled or fails when, the monitor accepts the trace: partials numbered one by
     one and none after the cancellation, audio and viseme chunks in adjacent pairs of equal and increasing
     number, offsets that add up, at most one last chunk, at most one pair begun after the cancellation
     (none if it fell inside a pair). The text returned is that of the `n` fragments sent; all are sent unless the turn
     was interrupted, and the client told so, or ended in the error. The sentences of the text are handed to synthesis
     in order, all of them without a cancellation, and all audio is sent in pairs but for a lone 0xFF byte, on which
     the turn ends in the error.
     */
    method Run(fragments: seq<string>, token: TurnToken) returns (fullText: string, raised: bool, ghost n: nat)
      requires trace == [] && calls == 0 && start == Origin(token.seqNo, token.cancelled)
      modifies this`trace, this`calls, token
      ensures Seen().ok && Seen().awaiting.None? && Seen().begunAfter <= 1
      ensures n <= |fragments| && fullText == Seen().text == Concat(fragments[..n])
      ensures Seen().lastPartial == start.seqNo + n
      ensures Seen().interrupted <==> n < |fragments| && !raised
      ensures Seen().interrupted ==> token.cancelled
      ensures Seen().audios == Heard(tts, Seen().tried)
      ensures raised <==> [0xFF] in Seen().audios
      ensures Seen().pairs == |Seen().audios| - if raised then 1 else 0
      ensures Seen().tried <= Sentences(fragments)
      ensures !token.cancelled && !raised ==> Seen().tried == Sentences(fragments)
    {
      hide Concat, Strip, RStrip, Observe, Perhaps, Heard, IsSentenceBoundary, SplitUp, Sentences;
      var buffer := "";
      fullText, raised := "", false;
      var offset := 0;
      NothingYet(fragments);
      NothingHeard(tts);
      SplitGrows(fragments, 0);
      SentencesEnd(fragments);
      assert fragments[..0] == [];
      n := 0;
      for i := 0 to |fragments|
        invariant n == i && Steady(token, fullText, offset) && !Seen().sawLast && !raised
        invariant Seen().lastPartial == token.seqNo == start.seqNo + i
        invariant [0xFF] !in Seen().audios && Seen().pairs == |Seen().audios|
        invariant fullText == Concat(fragments[..i])
        invariant Seen().tried <= SplitUp(fragments[..i]).done
        invariant !token.cancelled ==>
          Seen().tried == SplitUp(fragments[..i]).done && buffer == SplitUp(fragments[..i]).rest
      {
        SplitGrows(fragments, i);
        Pause(token, fullText, offset);
        if token.cancelled {
          InterruptEnds(Seen(), Origin(token.seqNo, true), true, fullText, offset);
          Send(token, Interrupt);
          return;
        }
        var fragment := fragments[i];
        Prefixes(fragments, i);
        SplitSnoc(fragments, i);
        SplitGrows(fragments, i + 1);
        buffer := buffer + fragment;
        var number := Say(fragment, token, fullText, offset);
        fullText := fullText + fragment;
        n := n + 1;
        if IsSentenceBoundary(buffer) {
          BoundarySpeaks(buffer);
          offset, raised := Flush(buffer, number, offset, token, false, fullText);
          buffer := "";
          if raised {
            return;
          }
        }
      }
      assert fragments[..|fragments|] == fragments;
      SplitGrows(fragments, |fragments|);
      Pause(token, fullText, offset);
      if Strip(buffer) != "" && !token.cancelled {
        var number := token.NextSeq();
        offset, raised := Flush(buffer, number, offset, token, true, fullText);
      }
    }

    /** Wait for the next fragment, or for the end of the stream. */
    method Pause(token: TurnToken, ghost fullText: string, ghost offset: nat)
      requires Steady(token, fullText, offset)
      modifies this`trace, token`cancelled
      ensures Steady(token, fullText, offset) && (old(token.cancelled) ==> token.cancelled)
      ensures SameTexts(old(Seen()), Seen())
      ensures Seen().audios == old(Seen()).audios && Seen().sawLast == old(Seen()).sawLast
      ensures Seen().pairs == old(Seen()).pairs
    {
      hide Observe, Perhaps, Watch;
      ghost var m, now := Seen(), Origin(token.seqNo, token.cancelled);
      Await(token);
      AwaitCalm(m, now, token.cancelled, fullText, offset);
    }

    /** Number a fragment and send it. */
    method Say(fragment: string, token: TurnToken, ghost fullText: string, ghost offset: nat) returns (n: nat)
      requires Steady(token, fullText, offset) && !token.cancelled && !Seen().sawLast
      requires Seen().lastPartial == token.seqNo
      modifies this`trace, token
      ensures n == token.seqNo == Seen().lastPartial == old(token.seqNo) + 1
      ensures Seen().lastAudio < n && !Seen().sawLast
      ensures Steady(token, fullText + fragment, offset)
      ensures Seen().tried == old(Seen()).tried && Seen().audios == old(Seen()).audios
      ensures Seen().pairs == old(Seen()).pairs
    {
      hide Observe, Perhaps, Watch;
      ghost var m, now := Seen(), Origin(token.seqNo, token.cancelled);
      n := token.NextSeq();
      SayCalm(m, now, fragment, n, fullText, offset);
      ghost var said := Observe(m, ChatPartial(fragment, n));
      Send(token, ChatPartial(fragment, n));
      AwaitCalm(said, Origin(n, false), token.cancelled, fullText + fragment, offset);
    }

    /** Hand the stripped buffer to synthesis, if anything is left of it. */
    method Flush(buffer: string, n: nat, offset: nat, token: TurnToken, isLast: bool, ghost fullText: string)
      returns (newOffset: nat, raised: bool)
      requires Steady(token, fullText, offset) && !Seen().sawLast && [0xFF] !in Seen().audios
      requires Seen().lastAudio < n == token.seqNo && Seen().pairs == |Seen().audios|
      requires Strip(buffer) != ""
      modifies this`trace, this`calls, token`cancelled
      ensures Steady(token, fullText, newOffset)
      ensures old(token.cancelled) ==> token.cancelled
      ensures Seen().sawLast ==> isLast
      ensures Seen().lastPartial == old(Seen()).lastPartial
      ensures raised <==> [0xFF] in Seen().audios
      ensures Seen().pairs == |Seen().audios| - if raised then 1 else 0
      ensures Seen().tried == old(Seen()).tried + if old(token.cancelled) then [] else [Strip(buffer)]
    {
      hide Strip, Observe, Watch, Heard;
      newOffset, raised := offset, false;
      var sentence := Strip(buffer);
      ghost var tried := Seen().tried;
      HeardSnoc(tts, tried, sentence);
      if sentence != "" {
        newOffset, raised := SynthesizeAndSend(sentence, n, offset, token, isLast, fullText);
      }
    }
  }

  /** No chunk has been sent since. */
  predicate Unsent(m: Monitor, m': Monitor) {
    m'.pairs == m.pairs && m'.lastAudio == m.lastAudio && m'.sawLast == m.sawLast
  }

  lemma NothingHeard(tts: Speech)
    ensures Heard(tts, []) == []
  {}

  lemma SentencesEnd(fragments: seq<string>)
    ensures var split := SplitUp(fragments);
      && SplitUp([]) == Split([], "")
      && Sentences(fragments) == split.done + if Strip(split.rest) == "" then [] else [Strip(split.rest)]
  {}

  lemma NothingYet(fragments: seq<string>)
    ensures Concat(fragments[..0]) == "" && Concat([]) == "" && Erase("") == ""
  {}

  lemma NothingLeft()
    ensures Erase("") == ""
  {}

  lemma Prefixes(fragments: seq<string>, i: nat)
    requires i < |fragments|
    ensures Concat(fragments[..i + 1]) == Concat(fragments[..i]) + fragments[i]
  {
    assert fragments[..i + 1] == fragments[..i] + [fragments[i]];
    ConcatSnoc(fragments[..i], fragments[i]);
  }

  lemma {:induction false} EraseConcatSnoc(parts: seq<string>, s: string)
    ensures Erase(Concat(parts + [s])) == Erase(Concat(parts)) + Erase(s)
  {
    EraseConcatAppend(parts, [s]);
    EraseConcatOne(s);
  }
}
