/** The stateful splitter that turns a stream of text deltas into speakable chunks. */
module Chunker {
  import opened Prelude
  import opened Text

  const FIRST_SOFT_LIMIT := 12

  /** The two patterns: clause marks for the first chunk, sentence ends afterwards. */
  datatype Pattern = Clause | Sentence

  const COMMA := '\U{FF0C}'      // fullwidth comma
  const PAUSE := '\U{3001}'      // ideographic comma
  const SEMICOLON := '\U{FF1B}'  // fullwidth semicolon

  const CLAUSE_MARKS: set<char> := {COMMA, PAUSE, SEMICOLON}

  /** Full stop, exclamation and question marks, semicolon and colon, in the widths the pattern lists. */
  const SENTENCE_MARKS: set<char> := {'\U{3002}', '\U{FF01}', '\U{FF1F}', '!', '?', SEMICOLON, '\U{FF1A}'}

  const LINE_ENDS: set<char> := {'\r', '\n'}

  /** The end of the run of characters of `chars` that starts at `p`. */
  function RunEnd(s: string, p: nat, chars: set<char>): (end: nat)
    requires p <= |s|
    ensures p <= end <= |s|
    ensures forall i | p <= i < end :: s[i] in chars
    ensures end < |s| ==> s[end] !in chars
    decreases |s| - p
  {
    if p < |s| && s[p] in chars then RunEnd(s, p + 1, chars) else p
  }

  /** The end of the pattern's match that starts at `p`, or `p` when none does. */
  function MatchEnd(re: Pattern, s: string, p: nat): (end: nat)
    requires p <= |s|
    ensures p <= end <= |s|
  {
    if p == |s| then p
    else if re.Clause? then RunEnd(s, p, CLAUSE_MARKS)
    else if s[p] in SENTENCE_MARKS then RunEnd(s, p, SENTENCE_MARKS)
    else if s[p] == '.' then
      var end := RunEnd(s, p, {'.'});
      if end - p >= 3 then end else p
    else RunEnd(s, p, LINE_ENDS)
  }

  /** The end of the leftmost match at or after `p`. */
  function NextMatch(re: Pattern, s: string, p: nat): (end: Option<nat>)
    requires p <= |s|
    ensures end.Some? ==> p < end.value <= |s|
    ensures end.None? <==> forall i | p <= i <= |s| :: MatchEnd(re, s, i) == i
    decreases |s| - p
  {
    if MatchEnd(re, s, p) > p then Some(MatchEnd(re, s, p))
    else if p == |s| then None
    else NextMatch(re, s, p + 1)
  }

  datatype Pieces = Pieces(out: seq<string>, cursor: nat)

  /** Cut `s` after each match from `cursor` on (only up to the first non-blank piece when `once`). */
  function Cut(re: Pattern, s: string, cursor: nat, once: bool): (r: Pieces)
    requires cursor <= |s|
    ensures cursor <= r.cursor <= |s|
    decreases |s| - cursor
  {
    var end := NextMatch(re, s, cursor);
    if end.None? then Pieces([], cursor)
    else
      var piece := Strip(s[cursor..end.value]);
      if piece == "" then Cut(re, s, end.value, once)
      else if once then Pieces([piece], end.value)
      else
        var rest := Cut(re, s, end.value, once);
        Pieces([piece] + rest.out, rest.cursor)
  }

  /** The last position below `hi` that holds a character of `chars`, or -1. */
  function LastOf(s: string, chars: set<char>, hi: nat): (i: int)
    ensures -1 <= i < |s| && i < hi
    ensures i >= 0 ==> s[i] in chars
    ensures forall j | i < j < hi && j < |s| :: 0 <= j ==> s[j] !in chars
  {
    if hi == 0 then -1
    else if hi <= |s| && s[hi - 1] in chars then hi - 1
    else LastOf(s, chars, hi - 1)
  }

  /** Where an overlong buffer is cut: after a pause mark, else before a space, else at the limit. */
  function SoftCut(buf: string, limit: nat, emitted: bool): (at: nat)
    ensures at <= limit
  {
    var pause := LastOf(buf, if emitted then {COMMA, PAUSE} else CLAUSE_MARKS, limit);
    var space := LastOf(buf, {' '}, limit);
    if pause >= 0 then pause + 1
    else if space >= 0 then space
    else limit
  }

  datatype State = State(buf: string, softLimit: nat, emitted: bool)
  {
    function ActiveLimit(): nat { if emitted then softLimit else FIRST_SOFT_LIMIT }
    predicate Valid() { softLimit >= 20 }
  }

  datatype Step = Step(state: State, out: seq<string>)

  /** First pass: one clause for the first chunk, all complete sentences afterwards. */
  function FirstPass(st: State): Step {
    var cut := Cut(if st.emitted then Sentence else Clause, st.buf, 0, !st.emitted);
    Step(st.(buf := st.buf[cut.cursor..], emitted := st.emitted || cut.out != []), cut.out)
  }

  /** Second pass: once a chunk is out, all complete sentences leave the buffer. */
  function SecondPass(st: State): Step {
    if !st.emitted then Step(st, [])
    else
      var cut := Cut(Sentence, st.buf, 0, false);
      Step(st.(buf := st.buf[cut.cursor..]), cut.out)
  }

  /** Fallback: a buffer that reached the active limit gives up a chunk. */
  function SoftPass(st: State): Step {
    if |st.buf| < st.ActiveLimit() then Step(st, [])
    else
      var at := SoftCut(st.buf, st.ActiveLimit(), st.emitted);
      var piece := Strip(st.buf[..at]);
      Step(st.(buf := LStrip(st.buf[at..]), emitted := st.emitted || piece != ""),
           if piece == "" then [] else [piece])
  }

  function Feed(st: State, delta: string): Step {
    if delta == "" then Step(st, [])
    else
      var first := FirstPass(st.(buf := st.buf + delta));
      var second := SecondPass(first.state);
      var soft := SoftPass(second.state);
      Step(soft.state, first.out + second.out + soft.out)
  }

  function FeedAll(st: State, deltas: seq<string>): Step
    decreases |deltas|
  {
    if deltas == [] then Step(st, [])
    else
      var head := Feed(st, deltas[0]);
      var rest := FeedAll(head.state, deltas[1..]);
      Step(rest.state, head.out + rest.out)
  }

  // ---- Conservation ----

  predicate Chunks(out: seq<string>) {
    forall c | c in out :: c != "" && Trimmed(c)
  }

  lemma {:induction false} CutConserves(re: Pattern, s: string, cursor: nat, once: bool)
    requires cursor <= |s|
    ensures var r := Cut(re, s, cursor, once);
      Chunks(r.out) && Erase(Concat(r.out)) == Erase(s[cursor..r.cursor])
    decreases |s| - cursor
  {
    hide Erase, Concat, Strip, Trimmed, NextMatch;
    var end := NextMatch(re, s, cursor);
    var r := Cut(re, s, cursor, once);
    if end.None? {
      assert s[cursor..r.cursor] == Concat(r.out) by { NothingToConcat(); }
    } else {
      var piece := Strip(s[cursor..end.value]);
      StripTrims(s[cursor..end.value]);
      EraseSplit(s, cursor, end.value, r.cursor);
      if piece == "" {
        CutConserves(re, s, end.value, once);
        NothingToErase();
      } else if once {
        EraseConcatOne(piece);
        assert s[cursor..r.cursor] == s[cursor..end.value];
      } else {
        CutConserves(re, s, end.value, once);
        EraseConcatCons(piece, Cut(re, s, end.value, once).out);
      }
    }
  }

  lemma NothingToConcat()
    ensures Concat([]) == ""
  {}

  lemma NothingToErase()
    ensures Erase("") == ""
  {}

  lemma CutSplits(re: Pattern, s: string, once: bool)
    ensures var r := Cut(re, s, 0, once);
      Chunks(r.out) && Erase(Concat(r.out)) + Erase(s[r.cursor..]) == Erase(s)
  {
    hide Erase, Concat, Cut, Trimmed;
    var r := Cut(re, s, 0, once);
    CutConserves(re, s, 0, once);
    EraseSplit(s, 0, r.cursor, |s|);
    assert s[0..|s|] == s;
  }

  lemma SoftConserves(st: State)
    ensures var r := SoftPass(st);
      Chunks(r.out) && Erase(Concat(r.out)) + Erase(r.state.buf) == Erase(st.buf)
  {
    hide Erase, Concat, Strip, LStrip, SoftCut, Trimmed;
    NothingToErase();
    NothingToConcat();
    if |st.buf| >= st.ActiveLimit() {
      var at := SoftCut(st.buf, st.ActiveLimit(), st.emitted);
      var head, tail := st.buf[..at], st.buf[at..];
      StripTrims(head);
      EraseLStrip(tail);
      EraseConcatOne(Strip(head));
      assert st.buf == head + tail;
      EraseAppend(head, tail);
    }
  }

  lemma {:induction false} PushConserves(st: State, delta: string)
    ensures var r := Feed(st, delta);
      Chunks(r.out) && Erase(Concat(r.out)) + Erase(r.state.buf) == Erase(st.buf) + Erase(delta)
  {
    hide Erase, Concat, Cut, SoftPass, Trimmed;
    NothingToErase();
    NothingToConcat();
    if delta != "" {
      var first := FirstPass(st.(buf := st.buf + delta));
      var second := SecondPass(first.state);
      var soft := SoftPass(second.state);
      EraseAppend(st.buf, delta);
      CutSplits(if st.emitted then Sentence else Clause, st.buf + delta, !st.emitted);
      CutSplits(Sentence, first.state.buf, false);
      SoftConserves(second.state);
      EraseConcatAppend(first.out + second.out, soft.out);
      EraseConcatAppend(first.out, second.out);
    }
  }

  /**
   Conservation: over any sequence of deltas, the emitted chunks followed by the flushed tail are the input,
   up to whitespace; every chunk is non-empty and trimmed.
   */
  lemma {:induction false} StreamConserves(st: State, deltas: seq<string>)
    ensures var r := FeedAll(st, deltas);
      && Chunks(r.out)
      && Erase(Concat(r.out)) + Erase(Strip(r.state.buf)) == Erase(st.buf) + Erase(Concat(deltas))
    decreases |deltas|
  {
    hide Erase, Concat, Strip, Feed, Trimmed;
    if deltas == [] {
      StripTrims(st.buf);
      NothingToErase();
      NothingToConcat();
    } else {
      var head := Feed(st, deltas[0]);
      PushConserves(st, deltas[0]);
      StreamConserves(head.state, deltas[1..]);
      var rest := FeedAll(head.state, deltas[1..]);
      EraseConcatAppend(head.out, rest.out);
      EraseConcatCons(deltas[0], deltas[1..]);
      assert deltas == [deltas[0]] + deltas[1..];
      Assoc(Erase(Concat(head.out)), Erase(Concat(rest.out)), Erase(Strip(rest.state.buf)));
      Assoc(Erase(Concat(head.out)), Erase(head.state.buf), Erase(Concat(deltas[1..])));
      Assoc(Erase(st.buf), Erase(deltas[0]), Erase(Concat(deltas[1..])));
    }
  }

  // ---- The buffer bound ----

  /** A soft cut falls at the very start of the buffer only before a space. */
  lemma CutInBuffer(buf: string, limit: nat, emitted: bool)
    requires 0 < limit <= |buf|
    ensures SoftCut(buf, limit, emitted) == 0 ==> IsSpace(buf[0])
  {}

  lemma SoftShrinks(st: State)
    requires st.Valid()
    ensures var r := SoftPass(st);
      && r.state.Valid() && r.state.softLimit == st.softLimit && (st.emitted ==> r.state.emitted)
      && (|st.buf| < st.ActiveLimit() ==> r.state == st)
      && (|st.buf| >= st.ActiveLimit() ==> |r.state.buf| < |st.buf|)
  {
    hide Erase, Strip, LStrip;
    var limit := st.ActiveLimit();
    var at := SoftCut(st.buf, limit, st.emitted);
    if |st.buf| >= limit {
      CutInBuffer(st.buf, limit, st.emitted);
      LStripSuffix(st.buf[at..]);
    }
  }

  /** The buffer after a delta is under the active limit, or has grown by less than the delta. */
  lemma PushBounds(st: State, delta: string)
    requires st.Valid()
    ensures var r := Feed(st, delta);
      && r.state.Valid() && r.state.softLimit == st.softLimit && (st.emitted ==> r.state.emitted)
      && (delta != "" ==> |r.state.buf| < r.state.ActiveLimit() || |r.state.buf| < |st.buf| + |delta|)
      && (delta == "" ==> r.state == st)
  {
    if delta != "" {
      var first := FirstPass(st.(buf := st.buf + delta));
      var second := SecondPass(first.state);
      SoftShrinks(second.state);
      assert |second.state.buf| <= |st.buf| + |delta|;
    }
  }

  /** The characters beyond the first of each delta. */
  function Surplus(deltas: seq<string>): nat {
    if deltas == [] then 0 else (if deltas[0] == "" then 0 else |deltas[0]| - 1) + Surplus(deltas[1..])
  }

  /**
   The buffer bound: starting below the active limit, after any deltas the buffer is below the active limit plus
   the surplus; so it stays below the limit when deltas have one character each.
   */
  lemma {:induction false} BufferBound(st: State, deltas: seq<string>, slack: nat)
    requires st.Valid() && |st.buf| < st.ActiveLimit() + slack
    ensures var r := FeedAll(st, deltas).state;
      r.Valid() && |r.buf| < r.ActiveLimit() + slack + Surplus(deltas)
    decreases |deltas|
  {
    if deltas != [] {
      var head := Feed(st, deltas[0]);
      PushBounds(st, deltas[0]);
      BufferBound(head.state, deltas[1..], slack + if deltas[0] == "" then 0 else |deltas[0]| - 1);
    }
  }

  // ---- No complete sentence waits ----

  predicate NoSentence(s: string) {
    forall i | 0 <= i <= |s| :: MatchEnd(Sentence, s, i) == i
  }

  lemma {:induction false} RunEndShift(s: string, c: nat, p: nat, chars: set<char>)
    requires c + p <= |s|
    ensures RunEnd(s[c..], p, chars) == RunEnd(s, c + p, chars) - c
    decreases |s| - p
  {
    if c + p < |s| && s[c + p] in chars {
      RunEndShift(s, c, p + 1, chars);
    }
  }

  /** What matches in a suffix matches in the whole. */
  lemma MatchShift(re: Pattern, s: string, c: nat, p: nat)
    requires c + p <= |s|
    ensures MatchEnd(re, s[c..], p) == MatchEnd(re, s, c + p) - c
  {
    RunEndShift(s, c, p, CLAUSE_MARKS);
    RunEndShift(s, c, p, SENTENCE_MARKS);
    RunEndShift(s, c, p, {'.'});
    RunEndShift(s, c, p, LINE_ENDS);
  }

  lemma SuffixHasNoSentence(s: string, c: nat)
    requires c <= |s|
    requires forall i | c <= i <= |s| :: MatchEnd(Sentence, s, i) == i
    ensures NoSentence(s[c..])
  {
    forall i | 0 <= i <= |s[c..]|
      ensures MatchEnd(Sentence, s[c..], i) == i
    {
      MatchShift(Sentence, s, c, i);
    }
  }

  lemma {:induction false} CutIsExhaustive(s: string, cursor: nat)
    requires cursor <= |s|
    ensures NextMatch(Sentence, s, Cut(Sentence, s, cursor, false).cursor).None?
    decreases |s| - cursor
  {
    var end := NextMatch(Sentence, s, cursor);
    if end.Some? {
      CutIsExhaustive(s, end.value);
    }
  }

  lemma StrippedHasNoSentence(s: string, at: nat)
    requires at <= |s| && NoSentence(s)
    ensures NoSentence(LStrip(s[at..]))
  {
    hide LStrip;
    LStripSuffix(s[at..]);
    var c := |s[at..]| - |LStrip(s[at..])|;
    assert s[at + c..] == LStrip(s[at..]);
    SuffixHasNoSentence(s, at + c);
  }

  /** Once a first chunk is out, or leaves at a clause mark, no complete sentence is left in the buffer. */
  lemma {:induction false} NoSentenceWaits(st: State, delta: string)
    requires delta != ""
    requires FirstPass(st.(buf := st.buf + delta)).state.emitted
    ensures NoSentence(Feed(st, delta).state.buf)
  {
    hide Cut, LStrip, Strip, NoSentence, SoftCut;
    var first := FirstPass(st.(buf := st.buf + delta));
    var second := SecondPass(first.state);
    assert NoSentence(second.state.buf) by {
      var cut := Cut(Sentence, first.state.buf, 0, false);
      CutIsExhaustive(first.state.buf, 0);
      SuffixHasNoSentence(first.state.buf, cut.cursor);
    }
    var at := SoftCut(second.state.buf, second.state.ActiveLimit(), second.state.emitted);
    if at <= |second.state.buf| {
      StrippedHasNoSentence(second.state.buf, at);
    }
  }

  // ---- Where chunks end ----

  /** The characters at positions `p` to `end` are of the given ones, and no more of them follow. */
  predicate WholeRun(s: string, p: nat, end: nat, chars: string) {
    && p < end <= |s| && (forall i | p <= i < end :: s[i] in chars) && (end < |s| ==> s[end] !in chars)
  }

  /** Fullwidth comma, ideographic comma and fullwidth semicolon. */
  const CLAUSES := "\U{FF0C}\U{3001}\U{FF1B}"

  /** Full stop; exclamation and question marks in both widths; fullwidth semicolon and colon. */
  const SENTENCES := "\U{3002}\U{FF01}\U{FF1F}!?\U{FF1B}\U{FF1A}"

  lemma SameMarks(c: char)
    ensures c in CLAUSE_MARKS <==> c in CLAUSES
    ensures c in SENTENCE_MARKS <==> c in SENTENCES
    ensures c in LINE_ENDS <==> c in "\r\n"
    ensures c in {'.'} <==> c in "."
  {}

  /** Which clause ends match, and how far: whole runs of clause marks. */
  lemma ClauseMatches(s: string, p: nat)
    requires p < |s|
    ensures MatchEnd(Clause, s, p) > p <==> s[p] in CLAUSES
    ensures s[p] in CLAUSES ==> WholeRun(s, p, MatchEnd(Clause, s, p), CLAUSES)
  {
    forall c: char
      ensures c in CLAUSE_MARKS <==> c in CLAUSES
    {
      SameMarks(c);
    }
  }

  /** Which sentence ends match, and how far: whole runs of sentence marks, of line ends, or of at least three dots. */
  lemma SentenceMatches(s: string, p: nat)
    requires p < |s|
    ensures var end, dots := MatchEnd(Sentence, s, p), p + 3 <= |s| && s[p..p + 3] == "...";
      && (end > p <==> s[p] in SENTENCES || s[p] in "\r\n" || dots)
      && (s[p] in SENTENCES ==> WholeRun(s, p, end, SENTENCES))
      && (s[p] in "\r\n" ==> WholeRun(s, p, end, "\r\n"))
      && (dots ==> WholeRun(s, p, end, "."))
  {
    forall c: char
      ensures c in SENTENCE_MARKS <==> c in SENTENCES
      ensures c in LINE_ENDS <==> c in "\r\n"
      ensures c in {'.'} <==> c in "."
    {
      SameMarks(c);
    }
    var end := RunEnd(s, p, {'.'});
    if end - p >= 3 {
      assert s[p] == '.' && s[p + 1] == '.' && s[p + 2] == '.';
      assert s[p..p + 3] == "...";
    } else if p + 3 <= |s| && s[p..p + 3] == "..." {
      assert s[p..p + 3][0] == s[p] && s[p..p + 3][1] == s[p + 1] && s[p..p + 3][2] == s[p + 2];
    }
  }

  /** The first match is the leftmost one, at `k`. */
  lemma {:induction false} FirstMatch(re: Pattern, s: string, p: nat) returns (k: nat)
    requires p <= |s| && NextMatch(re, s, p).Some?
    ensures p <= k < |s| && MatchEnd(re, s, k) == NextMatch(re, s, p).value > k
    ensures forall i | p <= i < k :: MatchEnd(re, s, i) == i
    decreases |s| - p
  {
    hide MatchEnd;
    if MatchEnd(re, s, p) > p {
      k := p;
    } else {
      k := FirstMatch(re, s, p + 1);
    }
  }

  /** Each piece cut off runs from `a`, through no other match, to the end of the first one, at `k`. */
  lemma {:induction false} PieceEndsAtMatch(re: Pattern, s: string, cursor: nat, once: bool, i: nat)
    returns (a: nat, k: nat)
    requires cursor <= |s| && i < |Cut(re, s, cursor, once).out|
    ensures cursor <= a <= k < |s| && k < MatchEnd(re, s, k)
    ensures forall j | a <= j < k :: MatchEnd(re, s, j) == j
    ensures Cut(re, s, cursor, once).out[i] == Strip(s[a..MatchEnd(re, s, k)])
    ensures once ==> i == 0
    decreases |s| - cursor
  {
    hide MatchEnd, Strip;
    var end := NextMatch(re, s, cursor).value;
    var piece := Strip(s[cursor..end]);
    if piece == "" {
      a, k := PieceEndsAtMatch(re, s, end, once, i);
    } else if i == 0 {
      a := cursor;
      k := FirstMatch(re, s, cursor);
    } else {
      a, k := PieceEndsAtMatch(re, s, end, once, i - 1);
    }
  }

  /** A mark, a line end or three dots at a position. */
  predicate EndsAt(s: string, i: nat)
    requires i < |s|
  {
    s[i] in SENTENCES || s[i] in "\r\n" || (i + 3 <= |s| && s[i..i + 3] == "...")
  }

  /** What is left in the buffer when no complete sentence is: no mark, no line end, no three dots. */
  lemma NoSentenceIff(s: string)
    ensures NoSentence(s) <==> forall i | 0 <= i < |s| :: !EndsAt(s, i)
  {
    hide MatchEnd, EndsAt;
    AtTheEnd(s);
    forall i | 0 <= i < |s|
      ensures MatchEnd(Sentence, s, i) == i <==> !EndsAt(s, i)
    {
      EndMatches(s, i);
    }
  }

  lemma EndMatches(s: string, i: nat)
    requires i < |s|
    ensures MatchEnd(Sentence, s, i) == i <==> !EndsAt(s, i)
  {
    hide MatchEnd;
    SentenceMatches(s, i);
  }

  lemma AtTheEnd(s: string)
    ensures MatchEnd(Sentence, s, |s|) == |s|
  {}

  lemma {:induction false} NextShift(re: Pattern, s: string, c: nat, p: nat)
    requires c + p <= |s|
    ensures var inner, outer := NextMatch(re, s[c..], p), NextMatch(re, s, c + p);
      if outer.None? then inner.None? else inner.Some? && inner.value + c == outer.value
    decreases |s| - p
  {
    hide MatchEnd;
    MatchShift(re, s, c, p);
    if MatchEnd(re, s, c + p) == c + p && c + p < |s| {
      NextShift(re, s, c, p + 1);
    }
  }

  lemma CutStep(re: Pattern, s: string, cursor: nat, once: bool)
    requires cursor <= |s| && NextMatch(re, s, cursor).Some?
    ensures var end := NextMatch(re, s, cursor).value; var piece := Strip(s[cursor..end]);
      var rest := Cut(re, s, end, once);
      Cut(re, s, cursor, once) ==
        if piece == "" then rest else if once then Pieces([piece], end) else Pieces([piece] + rest.out, rest.cursor)
  {
    hide NextMatch, Strip;
  }

  lemma CutEnd(re: Pattern, s: string, cursor: nat, once: bool)
    requires cursor <= |s| && NextMatch(re, s, cursor).None?
    ensures Cut(re, s, cursor, once) == Pieces([], cursor)
  {}

  lemma SameSlice(s: string, c: nat, p: nat, end: nat)
    requires c + p <= end <= |s|
    ensures s[c..][p..end - c] == s[c + p..end]
  {}

  /** Cutting on from some point is cutting what stands behind it. */
  lemma {:induction false} CutShift(re: Pattern, s: string, c: nat, p: nat, once: bool)
    requires c + p <= |s|
    ensures var inner, outer := Cut(re, s[c..], p, once), Cut(re, s, c + p, once);
      inner.out == outer.out && inner.cursor + c == outer.cursor
    decreases |s| - p
  {
    hide NextMatch, Strip, Cut;
    NextShift(re, s, c, p);
    var end := NextMatch(re, s, c + p);
    if end.None? {
      CutEnd(re, s[c..], p, once);
      CutEnd(re, s, c + p, once);
    } else {
      SameSlice(s, c, p, end.value);
      CutStep(re, s[c..], p, once);
      CutStep(re, s, c + p, once);
      CutShift(re, s, c, end.value - c, once);
    }
  }

  /** Once a chunk is out, the two passes over an emitted state are one pass over the sentences, then the soft cut. */
  lemma FeedEmitted(st: State, delta: string)
    requires st.emitted && delta != ""
    ensures var buf := st.buf + delta; var cut := Cut(Sentence, buf, 0, false);
      var soft := SoftPass(st.(buf := buf[cut.cursor..]));
      Feed(st, delta) == Step(soft.state, cut.out + soft.out)
  {
    hide NextMatch, Strip, SoftPass;
    var buf := st.buf + delta;
    var cut := Cut(Sentence, buf, 0, false);
    var rest := buf[cut.cursor..];
    CutIsExhaustive(buf, 0);
    CutShift(Sentence, buf, cut.cursor, 0, false);
    assert Cut(Sentence, rest, 0, false) == Pieces([], 0);
    assert rest[0..] == rest && cut.out + [] == cut.out;
  }

  /** What feeding a text does to a splitter with nothing in its buffer. */
  function Onward(st: State, rest: string): Step { Feed(st.(buf := "", emitted := true), rest) }

  lemma OnwardIs(st: State, rest: string)
    requires st.Valid()
    ensures var cut := Cut(Sentence, rest, 0, false);
      var soft := SoftPass(State(rest[cut.cursor..], st.softLimit, true));
      Onward(st, rest) == Step(soft.state, cut.out + soft.out)
  {
    hide NextMatch, Strip;
    if rest == "" {
      AtTheEnd(rest);
      NothingNext(rest);
    } else {
      assert "" + rest == rest;
      FeedEmitted(st.(buf := "", emitted := true), rest);
    }
  }

  lemma NothingNext(s: string)
    requires s == ""
    ensures Cut(Sentence, s, 0, false) == Pieces([], 0)
  {}

  /**
   Once a chunk is out, the first sentence in the buffer goes, however long the buffer is, and then it is as if the text
   behind it had only just come.
   */
  lemma {:induction false} SentenceGoesFirst(st: State, delta: string, k: nat) returns (end: nat)
    requires st.Valid() && st.emitted && delta != ""
    requires var buf := st.buf + delta; k < |buf| && EndsAt(buf, k) && forall i | 0 <= i < k :: !EndsAt(buf, i)
    ensures var buf := st.buf + delta; k < end <= |buf|
    ensures var buf := st.buf + delta; var sentence, on := Strip(buf[..end]), Onward(st, buf[end..]);
      Feed(st, delta) == Step(on.state, (if sentence == "" then [] else [sentence]) + on.out)
  {
    hide MatchEnd, Strip, SoftPass, EndsAt, Feed;
    var buf := st.buf + delta;
    forall i | 0 <= i <= k
      ensures MatchEnd(Sentence, buf, i) == i <==> i < k
    {
      EndMatches(buf, i);
    }
    assert MatchEnd(Sentence, buf, k) != k && NextMatch(Sentence, buf, 0).Some?;
    var m := FirstMatch(Sentence, buf, 0);
    end := MatchEnd(Sentence, buf, m);
    assert buf[0..end] == buf[..end];
    FeedEmitted(st, delta);
    CutShift(Sentence, buf, end, 0, false);
    OnwardIs(st, buf[end..]);
    var cut := Cut(Sentence, buf[end..], 0, false);
    assert buf[end..][cut.cursor..] == buf[end + cut.cursor..];
  }

  /**
   The first chunk goes out at the first clause mark: all of the buffer up to the end of that run of marks; and then it
   is as if the text behind it had only just come.
   */
  lemma {:induction false} FirstClauseGoes(st: State, delta: string, k: nat) returns (end: nat)
    requires st.Valid() && !st.emitted && delta != ""
    requires var buf := st.buf + delta; k < |buf| && buf[k] in CLAUSES && forall i | 0 <= i < k :: buf[i] !in CLAUSES
    ensures var buf := st.buf + delta; WholeRun(buf, k, end, CLAUSES) && Strip(buf[..end]) != ""
    ensures var buf := st.buf + delta; var on := Onward(st, buf[end..]);
      Feed(st, delta) == Step(on.state, [Strip(buf[..end])] + on.out)
  {
    hide Strip, Onward, SoftPass, WholeRun, FirstPass, Cut;
    var buf := st.buf + delta;
    end := FirstClause(st, buf, k);
    NotBlank(buf, end, k);
    OnwardIs(st, buf[end..]);
  }

  lemma {:induction false} FirstClause(st: State, buf: string, k: nat) returns (end: nat)
    requires !st.emitted && k < |buf| && buf[k] in CLAUSES && forall i | 0 <= i < k :: buf[i] !in CLAUSES
    ensures WholeRun(buf, k, end, CLAUSES) && k < end <= |buf|
    ensures FirstPass(st.(buf := buf)) == Step(State(buf[end..], st.softLimit, true), [Strip(buf[..end])])
  {
    hide MatchEnd, Strip;
    forall i | 0 <= i <= k
      ensures MatchEnd(Clause, buf, i) == i <==> i < k
    {
      ClauseMatches(buf, i);
    }
    assert MatchEnd(Clause, buf, k) != k && NextMatch(Clause, buf, 0).Some?;
    var m := FirstMatch(Clause, buf, 0);
    end := MatchEnd(Clause, buf, m);
    ClauseMatches(buf, k);
    NotBlank(buf, end, k);
    assert buf[0..end] == buf[..end];
  }

  lemma NotBlank(buf: string, end: nat, k: nat)
    requires k < end <= |buf| && buf[k] in CLAUSES
    ensures Strip(buf[..end]) != ""
  {
    StripTrims(buf[..end]);
    EraseSplit(buf, 0, k, end);
    assert buf[k..end][0] == buf[k];
    assert buf[0..end] == buf[..end];
  }

  /** Where an overlong buffer is cut: after its last comma below the limit, else before its last space, else there. */
  lemma SoftCutIs(buf: string, limit: nat, emitted: bool)
    requires limit <= |buf|
    ensures var at := SoftCut(buf, limit, emitted);
      var commas := if emitted then "\U{FF0C}\U{3001}" else CLAUSES;
      if exists i | 0 <= i < limit :: buf[i] in commas then
        0 < at <= limit && buf[at - 1] in commas && forall j | at <= j < limit :: buf[j] !in commas
      else if exists i | 0 <= i < limit :: buf[i] == ' ' then
        at < limit && buf[at] == ' ' && forall j | at < j < limit :: buf[j] != ' '
      else at == limit
  {
    forall c: char
      ensures c in CLAUSE_MARKS <==> c in CLAUSES
      ensures c in {COMMA, PAUSE} <==> c in "\U{FF0C}\U{3001}"
    {
      SameMarks(c);
    }
  }

  /** A buffer under the limit, 12 before the first chunk, that holds no match is kept whole. */
  lemma ShortIsKept(st: State, delta: string)
    requires delta != "" && |st.buf + delta| < if st.emitted then st.softLimit else 12
    requires var buf := st.buf + delta;
      if st.emitted then NoSentence(buf) else forall i | 0 <= i < |buf| :: buf[i] !in CLAUSES
    ensures Feed(st, delta) == Step(st.(buf := st.buf + delta), [])
  {
    hide MatchEnd;
    var buf := st.buf + delta;
    if !st.emitted {
      NoClause(buf);
    }
    assert buf[0..] == buf;
  }

  lemma NoClause(buf: string)
    requires forall i | 0 <= i < |buf| :: buf[i] !in CLAUSES
    ensures forall i | 0 <= i <= |buf| :: MatchEnd(Clause, buf, i) == i
  {
    forall i | 0 <= i < |buf|
      ensures MatchEnd(Clause, buf, i) == i
    {
      ClauseMatches(buf, i);
    }
  }

  // ---- The stateful splitter ----

  lemma NothingToDrain(st: State)
    requires !st.emitted || st.buf == ""
    ensures SecondPass(st) == Step(st, [])
  {}

  class SentenceChunker {
    var buf: string
    const softLimit: nat
    var firstChunkEmitted: bool

    ghost function Value(): State
      reads this
    {
      State(buf, softLimit, firstChunkEmitted)
    }

    constructor (softLimitChars: int)
      ensures Value() == State("", Max(20, softLimitChars), false) && Value().Valid()
    {
      buf := "";
      softLimit := Max(20, softLimitChars);
      firstChunkEmitted := false;
    }

    method Push(delta: string) returns (out: seq<string>)
      modifies this
      ensures Step(Value(), out) == Feed(old(Value()), delta)
    {
      hide Cut, SoftPass;
      if delta == "" {
        return [];
      }
      buf := buf + delta;
      out := SplitFirst();
      if firstChunkEmitted && buf != "" {
        out := DrainSentences(out);
      } else {
        NothingToDrain(Value());
      }
      out := SoftChunk(out);
    }

    /** Emit one clause as the first chunk, or every complete sentence once it is out. */
    method SplitFirst() returns (out: seq<string>)
      modifies this
      ensures Step(Value(), out) == FirstPass(old(Value()))
    {
      hide Strip, NextMatch, Cut;
      out := [];
      var splitRe := if firstChunkEmitted then Sentence else Clause;
      var cursor := 0;
      var end := NextMatch(splitRe, buf, cursor);
      while end.Some?
        invariant cursor <= |buf| && Value() == old(Value()) && end == NextMatch(splitRe, buf, cursor)
        invariant var rest := Cut(splitRe, buf, cursor, !firstChunkEmitted);
          Cut(splitRe, buf, 0, !firstChunkEmitted) == Pieces(out + rest.out, rest.cursor)
        invariant !firstChunkEmitted ==> out == []
        decreases |buf| - cursor
      {
        var segment := Strip(buf[cursor..end.value]);
        CutStep(splitRe, buf, cursor, !firstChunkEmitted);
        cursor := end.value;
        if segment != "" {
          out := out + [segment];
          if !firstChunkEmitted {
            firstChunkEmitted := true;
            break;
          }
        }
        end := NextMatch(splitRe, buf, cursor);
      }
      if end.None? {
        CutEnd(splitRe, buf, cursor, !firstChunkEmitted);
      }
      if cursor > 0 {
        buf := buf[cursor..];
      }
    }

    /** Move every complete sentence from the buffer to the output. */
    method DrainSentences(before: seq<string>) returns (out: seq<string>)
      requires firstChunkEmitted
      modifies this`buf
      ensures Value() == SecondPass(old(Value())).state && out == before + SecondPass(old(Value())).out
    {
      out := before;
      var cursor := 0;
      var end := NextMatch(Sentence, buf, cursor);
      while end.Some?
        invariant cursor <= |buf| && buf == old(buf) && end == NextMatch(Sentence, buf, cursor)
        invariant var rest := Cut(Sentence, buf, cursor, false); var all := Cut(Sentence, buf, 0, false);
          before + all.out == out + rest.out && all.cursor == rest.cursor
        decreases |buf| - cursor
      {
        var segment := Strip(buf[cursor..end.value]);
        if segment != "" {
          out := out + [segment];
        }
        cursor := end.value;
        end := NextMatch(Sentence, buf, cursor);
      }
      if cursor > 0 {
        buf := buf[cursor..];
      }
    }

    /** Give up one chunk when the buffer has reached the active limit. */
    method SoftChunk(before: seq<string>) returns (out: seq<string>)
      modifies this
      ensures Value() == SoftPass(old(Value())).state && out == before + SoftPass(old(Value())).out
    {
      out := before;
      var limit := if firstChunkEmitted then softLimit else FIRST_SOFT_LIMIT;
      if |buf| >= limit {
        var at := SoftCut(buf, limit, firstChunkEmitted);
        var segment := Strip(buf[..at]);
        buf := LStrip(buf[at..]);
        if segment != "" {
          out := out + [segment];
          firstChunkEmitted := true;
        }
      }
    }

    method Flush() returns (tail: string)
      modifies this`buf
      ensures tail == Strip(old(buf)) && buf == ""
    {
      tail := Strip(buf);
      buf := "";
    }
  }
}
