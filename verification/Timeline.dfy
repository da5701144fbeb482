/**
 Mouth shapes over time: a text's phonemes spread over the length of its audio, and the smoothed viseme timeline built
 from them. Durations are integer milliseconds, mouth parameters exact reals.
 */
module Timeline {
  import opened Prelude
  import opened Text

  // ---- Estimated phonemes ----

  /** An interval of the audio during which a phoneme sounds. */
  datatype Stamp = Stamp(phoneme: string, start: int, end: int)

  const SIL: string := "SIL"

  function Candidates(letter: char): seq<string> {
    match letter
    case 'a' => ["AE", "AH", "AA"]
    case 'b' => ["B"]
    case 'c' => ["K", "S"]
    case 'd' => ["D"]
    case 'e' => ["EH", "IY"]
    case 'f' => ["F"]
    case 'g' => ["G"]
    case 'h' => ["HH"]
    case 'i' => ["IH", "AY"]
    case 'j' => ["JH"]
    case 'k' => ["K"]
    case 'l' => ["L"]
    case 'm' => ["M"]
    case 'n' => ["N"]
    case 'o' => ["OW", "AO"]
    case 'p' => ["P"]
    case 'q' => ["K"]
    case 'r' => ["R"]
    case 's' => ["S", "Z"]
    case 't' => ["T"]
    case 'u' => ["UW", "AH"]
    case 'v' => ["V"]
    case 'w' => ["W"]
    case 'x' => ["K", "S"]
    case 'y' => ["Y", "IY"]
    case 'z' => ["Z"]
    case _ => []
  }

  function RunLength(text: string): (n: nat)
    ensures n <= |text|
  {
    if text == "" || IsSpace(text[0]) then 0 else 1 + RunLength(text[1..])
  }

  /** The words of a text: its maximal runs without whitespace. */
  function Words(text: string): seq<string>
    decreases |text|
  {
    if text == "" then []
    else if IsSpace(text[0]) then Words(text[1..])
    else [text[..RunLength(text)]] + Words(text[RunLength(text)..])
  }

  lemma {:induction false} RunHasNoSpace(text: string)
    ensures Erase(text[..RunLength(text)]) == text[..RunLength(text)]
  {
    if text != "" && !IsSpace(text[0]) {
      var run := text[..RunLength(text)];
      assert run[1..] == text[1..][..RunLength(text[1..])];
      RunHasNoSpace(text[1..]);
      assert run == [run[0]] + run[1..];
    }
  }

  /** Splitting loses whitespace only, and yields no empty words. */
  lemma {:induction false} WordsConserve(text: string)
    ensures Concat(Words(text)) == Erase(text)
    ensures forall w | w in Words(text) :: w != "" && Erase(w) == w
    decreases |text|
  {
    if text != "" {
      if IsSpace(text[0]) {
        WordsConserve(text[1..]);
      } else {
        var n := RunLength(text);
        assert text == text[..n] + text[n..];
        RunHasNoSpace(text);
        EraseAppend(text[..n], text[n..]);
        WordsConserve(text[n..]);
      }
    }
  }

  predicate Spaceless(text: string) { forall c | c in text :: !IsSpace(c) }

  lemma {:induction false} WholeRun(text: string)
    requires Spaceless(text)
    ensures RunLength(text) == |text|
  {
    hide IsSpace;
    if text != "" {
      assert text[0] in text;
      WholeRun(text[1..]);
    }
  }

  /** A text without whitespace is one word. */
  lemma {:induction false} OneWord(text: string)
    requires text != "" && Spaceless(text)
    ensures Words(text) == [text]
  {
    hide IsSpace;
    assert text[0] in text;
    WholeRun(text);
    assert text[..|text|] == text && text[|text|..] == "";
  }

  lemma {:induction false} RunStops(a: string, c: char, b: string)
    requires IsSpace(c)
    ensures RunLength(a + [c] + b) == RunLength(a)
  {
    hide IsSpace;
    var text := a + [c] + b;
    if a == "" {
      assert text[0] == c;
    } else {
      assert text[0] == a[0] && text[1..] == a[1..] + [c] + b;
      RunStops(a[1..], c, b);
    }
  }

  /** Whitespace parts words. */
  lemma {:induction false} WordsPart(a: string, c: char, b: string)
    requires IsSpace(c)
    ensures Words(a + [c] + b) == Words(a) + Words(b)
    decreases |a|
  {
    hide IsSpace;
    var text := a + [c] + b;
    if a == "" {
      assert text[0] == c && text[1..] == b;
    } else if IsSpace(a[0]) {
      assert text[0] == a[0] && text[1..] == a[1..] + [c] + b;
      WordsPart(a[1..], c, b);
    } else {
      RunStops(a, c, b);
      var n := RunLength(a);
      assert text[0] == a[0] && n > 0 && text[..n] == a[..n] && text[n..] == a[n..] + [c] + b;
      WordsPart(a[n..], c, b);
    }
  }

  function Spell(phonemes: seq<string>, letters: string): seq<string>
    decreases |letters|
  {
    if letters == "" then phonemes
    else
      var c := Candidates(letters[0]);
      Spell(if c == [] then phonemes else phonemes + [c[|phonemes| % |c|]], letters[1..])
  }

  function PhonemesOf(words: seq<string>, lower: string -> string): seq<string> {
    if words == [] then []
    else
      var last := |words| - 1;
      Spell(PhonemesOf(words[..last], lower), lower(words[last])) + [SIL]
  }

  function Silence(): string -> int { (p: string) => if p == SIL then 1 else 0 }

  predicate Known(phonemes: seq<string>) { forall p | p in phonemes :: VisemeOf(p).Some? }

  lemma CandidatesAreKnown(letter: char)
    ensures Known(Candidates(letter)) && SIL !in Candidates(letter)
  {}

  lemma {:induction false} SpellKnown(phonemes: seq<string>, letters: string)
    requires Known(phonemes)
    ensures Known(Spell(phonemes, letters)) && phonemes <= Spell(phonemes, letters)
    ensures Sum(Spell(phonemes, letters), Silence()) == Sum(phonemes, Silence())
    decreases |letters|
  {
    hide VisemeOf, Candidates;
    if letters != "" {
      var c := Candidates(letters[0]);
      CandidatesAreKnown(letters[0]);
      var next := if c == [] then phonemes else phonemes + [c[|phonemes| % |c|]];
      if c != [] {
        SumSnoc(phonemes, c[|phonemes| % |c|], Silence());
      }
      SpellKnown(next, letters[1..]);
    }
  }

  /** One pause per word, and no phoneme the viseme table does not know. */
  lemma {:induction false} PhonemesAreKnown(words: seq<string>, lower: string -> string)
    ensures Known(PhonemesOf(words, lower))
    ensures Sum(PhonemesOf(words, lower), Silence()) == |words| <= |PhonemesOf(words, lower)|
  {
    if words != [] {
      hide Candidates;
      var last := |words| - 1;
      var before := PhonemesOf(words[..last], lower);
      PhonemesAreKnown(words[..last], lower);
      SpellKnown(before, lower(words[last]));
      var spelt := Spell(before, lower(words[last]));
      SumSnoc(spelt, SIL, Silence());
      SumAtMost(PhonemesOf(words, lower), Silence(), 1);
    }
  }

  /** Exactly the letters sound. */
  lemma LettersSound(letter: char)
    ensures Candidates(letter) != [] <==> 'a' <= letter <= 'z'
  {}

  /** The sounds of the letters from a to i, from j to r, and from s to z. */
  lemma LettersAToI()
    ensures Candidates('a') == ["AE", "AH", "AA"] && Candidates('b') == ["B"] && Candidates('c') == ["K", "S"]
    ensures Candidates('d') == ["D"] && Candidates('e') == ["EH", "IY"] && Candidates('f') == ["F"]
    ensures Candidates('g') == ["G"] && Candidates('h') == ["HH"] && Candidates('i') == ["IH", "AY"]
  {}

  lemma LettersJToR()
    ensures Candidates('j') == ["JH"] && Candidates('k') == ["K"] && Candidates('l') == ["L"]
    ensures Candidates('m') == ["M"] && Candidates('n') == ["N"] && Candidates('o') == ["OW", "AO"]
    ensures Candidates('p') == ["P"] && Candidates('q') == ["K"] && Candidates('r') == ["R"]
  {}

  lemma LettersSToZ()
    ensures Candidates('s') == ["S", "Z"] && Candidates('t') == ["T"] && Candidates('u') == ["UW", "AH"]
    ensures Candidates('v') == ["V"] && Candidates('w') == ["W"] && Candidates('x') == ["K", "S"]
    ensures Candidates('y') == ["Y", "IY"] && Candidates('z') == ["Z"]
  {}

  /** Spelling goes letter by letter, each letter taking its sounds in turn by its place in the whole. */
  lemma {:induction false} SpellParts(phonemes: seq<string>, a: string, letter: char)
    ensures var before, c := Spell(phonemes, a), Candidates(letter);
      Spell(phonemes, a + [letter]) == before + if c == [] then [] else [c[|before| % |c|]]
    decreases |a|
  {
    hide Candidates;
    if a == "" {
      assert a + [letter] == [letter] && [letter][1..] == "";
      assert Spell(phonemes, "") == phonemes && phonemes + [] == phonemes;
    } else {
      assert (a + [letter])[1..] == a[1..] + [letter];
      var c := Candidates(a[0]);
      SpellParts(if c == [] then phonemes else phonemes + [c[|phonemes| % |c|]], a[1..], letter);
    }
  }

  /** A pause ends the last word, and so each. */
  lemma PauseEnds(words: seq<string>, lower: string -> string)
    requires words != []
    ensures PhonemesOf(words, lower)[|PhonemesOf(words, lower)| - 1] == "SIL"
  {
    hide Spell;
  }

  function Letters(text: string): nat {
    if text == "" then 0 else (if 'a' <= text[0] <= 'z' then 1 else 0) + Letters(text[1..])
  }

  /** One phoneme for each letter. */
  lemma {:induction false} SpellCounts(phonemes: seq<string>, letters: string)
    ensures |Spell(phonemes, letters)| == |phonemes| + Letters(letters)
    decreases |letters|
  {
    hide Candidates;
    if letters != "" {
      LettersSound(letters[0]);
      var c := Candidates(letters[0]);
      SpellCounts(if c == [] then phonemes else phonemes + [c[|phonemes| % |c|]], letters[1..]);
    }
  }

  /** A text of nothing but whitespace is 150 milliseconds of silence, whatever the length of its audio. */
  lemma BlankIsSilence(text: string, total: int, lower: string -> string)
    requires Erase(text) == ""
    ensures Estimated(text, total, lower) == [Stamp("SIL", 0, 150)]
  {
    hide PhonemesOf;
    WordsConserve(text);
    if Words(text) != [] {
      SomethingIsSaid(Words(text));
    }
  }

  lemma SomethingIsSaid(words: seq<string>)
    requires words != [] && forall w | w in words :: w != ""
    ensures Concat(words) != ""
  {
    assert words[0] in words;
  }

  // ---- Tiling ----

  /** The length given to each of n phonemes, rounded down but at least 30. */
  function StepLength(n: nat, total: int): (step: int)
    requires n > 0
    ensures step >= 30
  {
    Max(30, total / n)
  }

  /** Every phoneme gets an even share, rounded down; 30 when that would be less. */
  lemma StepIs(n: nat, total: int)
    requires n > 0
    ensures var step := StepLength(n, total);
      if total >= 30 * n then step * n <= total < (step + 1) * n else step == 30
  {
    Share(n, total);
    if total < 30 * n {
      LessOf(total / n, 30, n);
    } else {
      LessOf(29, total / n, n);
    }
  }

  lemma Share(n: nat, total: int)
    requires n > 0
    ensures (total / n) * n <= total < (total / n + 1) * n
  {
    assert total == n * (total / n) + total % n;
  }

  lemma LessOf(a: int, b: int, n: nat)
    requires a * n < b * n
    ensures a < b
  {}

  /** The k-th of n intervals. */
  function Interval(phoneme: string, k: nat, n: nat, total: int): Stamp
    requires n > 0
  {
    var step := StepLength(n, total);
    Stamp(phoneme, if k == 0 then 0 else Min(k * step, total), Min((k + 1) * step, total))
  }

  function Spread(phonemes: seq<string>, total: int): (r: seq<Stamp>)
    ensures |r| == |phonemes|
  {
    seq(|phonemes|, (k: nat) requires k < |phonemes| => Interval(phonemes[k], k, |phonemes|, total))
  }

  function Estimated(text: string, total: int, lower: string -> string): seq<Stamp> {
    if Words(text) == [] then [Stamp(SIL, 0, 150)] else Spread(PhonemesOf(Words(text), lower), total)
  }

  /** The phonemes of a text, and where in the audio each of them falls. */
  method EstimatedPhonemeTimestamps(text: string, total: int, lower: string -> string) returns (out: seq<Stamp>)
    ensures out == Estimated(text, total, lower)
  {
    hide Candidates, Silence, VisemeOf, Words;
    var words := Words(text);
    if words == [] {
      return [Stamp(SIL, 0, 150)];
    }
    var phonemes: seq<string> := [];
    for w := 0 to |words|
      invariant phonemes == PhonemesOf(words[..w], lower)
    {
      var letters := lower(words[w]);
      for i := 0 to |letters|
        invariant Spell(phonemes, letters[i..]) == Spell(PhonemesOf(words[..w], lower), letters)
      {
        var candidates := Candidates(letters[i]);
        assert letters[i..][0] == letters[i] && letters[i..][1..] == letters[i + 1..];
        if candidates != [] {
          phonemes := phonemes + [candidates[|phonemes| % |candidates|]];
        }
      }
      assert words[..w + 1][..w] == words[..w];
      phonemes := phonemes + [SIL];
    }
    assert words[..|words|] == words;
    PhonemesAreKnown(words, lower);
    out := Distribute(phonemes, total);
  }

  /** Hand out the total from left to right, the last phonemes taking what is left. */
  method Distribute(phonemes: seq<string>, total: int) returns (out: seq<Stamp>)
    requires phonemes != []
    ensures out == Spread(phonemes, total)
  {
    var n := |phonemes|;
    var step := Max(30, total / n);
    out := [];
    var cursor := 0;
    for i := 0 to n
      invariant cursor == if i == 0 then 0 else Min(i * step, total)
      invariant |out| == i && forall k :: 0 <= k < i ==> out[k] == Interval(phonemes[k], k, n, total)
    {
      var end := Min(cursor + step, total);
      assert (i + 1) * step == i * step + step;
      out := out + [Stamp(phonemes[i], cursor, end)];
      cursor := end;
    }
  }

  lemma StepsCover(n: nat, total: int)
    requires n > 0
    ensures total - n < n * StepLength(n, total)
  {
    assert total == n * (total / n) + total % n;
    assert n * StepLength(n, total) >= n * (total / n);
  }

  /** Where the k-th interval starts and ends, and that it continues the one before. */
  lemma IntervalChains(phonemes: seq<string>, total: int, k: nat)
    requires k < |phonemes|
    ensures var r, step := Spread(phonemes, total), StepLength(|phonemes|, total);
      && r[k].end == Min(k * step + step, total)
      && r[k].start == (if k == 0 then 0 else r[k - 1].end)
      && (total >= 0 ==> r[k].start <= r[k].end)
  {
    hide StepLength;
    var step := StepLength(|phonemes|, total);
    assert (k + 1) * step == k * step + step && k * step >= 0;
  }

  /**
   The intervals start at 0 and follow on one another; they run forwards exactly when the total is not negative.
   */
  lemma {:induction false} Contiguous(phonemes: seq<string>, total: int)
    requires phonemes != []
    ensures var r := Spread(phonemes, total); var n := |r|;
      && r[0].start == 0
      && (forall k | 0 <= k < n - 1 :: r[k].end == r[k + 1].start)
      && ((forall k | 0 <= k < n :: r[k].start <= r[k].end) <==> total >= 0)
      && (total >= 0 ==> total - n < r[n - 1].end <= total)
  {
    hide Spread, StepLength;
    var r, n, step := Spread(phonemes, total), |phonemes|, StepLength(|phonemes|, total);
    forall k | 0 <= k < n
      ensures k > 0 ==> r[k - 1].end == r[k].start
      ensures total >= 0 ==> r[k].start <= r[k].end
    {
      IntervalChains(phonemes, total, k);
    }
    forall k | 0 <= k < n - 1
      ensures r[k].end == r[k + 1].start
    {
      IntervalChains(phonemes, total, k + 1);
    }
    IntervalChains(phonemes, total, 0);
    IntervalChains(phonemes, total, n - 1);
    StepsCover(n, total);
    assert (n - 1) * step + step == n * step;
  }

  /** Every instant before the end of the timeline belongs to exactly one phoneme: the one a single division finds. */
  lemma {:induction false} OneAtATime(phonemes: seq<string>, total: int, t: int)
    requires phonemes != [] && 0 <= t < Spread(phonemes, total)[|phonemes| - 1].end
    ensures var k := t / StepLength(|phonemes|, total);
      && 0 <= k < |phonemes| && Sounds(phonemes, total, k, t)
      && forall j | 0 <= j < |phonemes| && j != k :: !Sounds(phonemes, total, j, t)
  {
    hide StepLength;
    var n, step := |phonemes|, StepLength(|phonemes|, total);
    var k := t / step;
    DivBounds(t, step);
    LessThanScaled(k, n, step, t);
    assert Sounds(phonemes, total, k, t);
    forall j | 0 <= j < n && j != k
      ensures !Sounds(phonemes, total, j, t)
    {
      if j < k {
        Scaled(j + 1, k, step);
      } else {
        Scaled(k + 1, j, step);
      }
    }
  }

  predicate Sounds(phonemes: seq<string>, total: int, k: nat, t: int)
    requires k < |phonemes|
  {
    Spread(phonemes, total)[k].start <= t < Spread(phonemes, total)[k].end
  }

  lemma DivBounds(t: nat, step: nat)
    requires step > 0
    ensures 0 <= t / step && (t / step) * step <= t < (t / step + 1) * step
  {
    assert (t / step + 1) * step == (t / step) * step + step;
  }

  lemma LessThanScaled(k: nat, n: nat, step: nat, t: int)
    requires k * step <= t < n * step
    ensures k < n
  {
    if k >= n {
      Scaled(n, k, step);
    }
  }

  lemma Scaled(a: nat, b: nat, step: nat)
    requires a <= b
    ensures a * step <= b * step
  {}

  // ---- Visemes ----

  datatype Viseme = Sil | Closed | Open | OpenBack | Wide | Mid | Round | Bite | Teeth | Tip | Rest

  function VisemeOf(token: string): Option<Viseme> {
    match token
    case "AA" => Some(OpenBack)
    case "AE" => Some(Wide)
    case "AH" => Some(Mid)
    case "AO" => Some(Round)
    case "AW" => Some(Round)
    case "AY" => Some(Wide)
    case "B" => Some(Closed)
    case "CH" => Some(Rest)
    case "D" => Some(Rest)
    case "EH" => Some(Mid)
    case "ER" => Some(Mid)
    case "EY" => Some(Wide)
    case "F" => Some(Bite)
    case "G" => Some(Rest)
    case "HH" => Some(Open)
    case "IH" => Some(Mid)
    case "IY" => Some(Wide)
    case "JH" => Some(Rest)
    case "K" => Some(Rest)
    case "L" => Some(Tip)
    case "M" => Some(Closed)
    case "N" => Some(Closed)
    case "NG" => Some(Closed)
    case "OW" => Some(Round)
    case "OY" => Some(Round)
    case "P" => Some(Closed)
    case "R" => Some(Mid)
    case "S" => Some(Teeth)
    case "SH" => Some(Teeth)
    case "T" => Some(Rest)
    case "TH" => Some(Tip)
    case "UH" => Some(Round)
    case "UW" => Some(Round)
    case "V" => Some(Bite)
    case "W" => Some(Round)
    case "Y" => Some(Wide)
    case "Z" => Some(Teeth)
    case "SIL" => Some(Sil)
    case _ => None
  }

  datatype Mouth = Mouth(open: real, form: real)

  function Params(v: Viseme): Mouth {
    match v
    case Sil => Mouth(0.05, 0.5)
    case Closed => Mouth(0.02, 0.45)
    case Open => Mouth(0.75, 0.55)
    case OpenBack => Mouth(0.85, 0.4)
    case Wide => Mouth(0.55, 0.85)
    case Mid => Mouth(0.45, 0.6)
    case Round => Mouth(0.55, 0.25)
    case Bite => Mouth(0.3, 0.35)
    case Teeth => Mouth(0.25, 0.65)
    case Tip => Mouth(0.35, 0.5)
    case Rest => Mouth(0.15, 0.5)
  }

  /** What the timeline builder reads of a phoneme: either part may be missing. */
  datatype Cue = Cue(phoneme: Option<string>, start: Option<int>)

  /** The viseme of a phoneme, of its first two characters if the whole is unknown, or rest. */
  function PhonemeToViseme(phoneme: string, upper: string -> string): Viseme {
    var token := upper(Strip(if phoneme == "" then SIL else phoneme));
    match VisemeOf(token)
    case Some(v) => v
    case None =>
      match VisemeOf(if |token| < 2 then token else token[..2])
      case Some(v) => v
      case None => Rest
  }

  function CueViseme(cue: Cue, upper: string -> string): Viseme {
    PhonemeToViseme(if cue.phoneme.Some? then cue.phoneme.value else SIL, upper)
  }

  lemma FrontPhonemes(p: string)
    ensures VisemeOf(p) == Some(Sil) <==> p == "SIL"
    ensures VisemeOf(p) == Some(Closed) <==> p == "B" || p == "M" || p == "N" || p == "NG" || p == "P"
    ensures VisemeOf(p) == Some(Open) <==> p == "HH"
    ensures VisemeOf(p) == Some(OpenBack) <==> p == "AA"
    ensures VisemeOf(p) == Some(Bite) <==> p == "F" || p == "V"
  {}

  lemma VowelPhonemes(p: string)
    ensures VisemeOf(p) == Some(Wide) <==> p == "AE" || p == "AY" || p == "EY" || p == "IY" || p == "Y"
    ensures VisemeOf(p) == Some(Mid) <==> p == "AH" || p == "EH" || p == "ER" || p == "IH" || p == "R"
    ensures VisemeOf(p) == Some(Round) <==>
      p == "AO" || p == "AW" || p == "OW" || p == "OY" || p == "UH" || p == "UW" || p == "W"
  {}

  lemma BackPhonemes(p: string)
    ensures VisemeOf(p) == Some(Teeth) <==> p == "S" || p == "SH" || p == "Z"
    ensures VisemeOf(p) == Some(Tip) <==> p == "L" || p == "TH"
    ensures VisemeOf(p) == Some(Rest) <==>
      p == "CH" || p == "D" || p == "G" || p == "JH" || p == "K" || p == "T"
  {}

  /** A token is looked up whole, else by its first two characters: a stress digit is ignored. Else it is rest. */
  lemma Lookup(phoneme: string, upper: string -> string, v: Viseme)
    requires phoneme != ""
    ensures var token := upper(Strip(phoneme));
      && (VisemeOf(token) == Some(v) ==> PhonemeToViseme(phoneme, upper) == v)
      && (VisemeOf(token).None? && |token| >= 2 && VisemeOf([token[0], token[1]]) == Some(v) ==>
            PhonemeToViseme(phoneme, upper) == v)
      && (VisemeOf(token).None? && |token| >= 2 && VisemeOf([token[0], token[1]]).None? ==>
            PhonemeToViseme(phoneme, upper) == Rest)
      && (VisemeOf(token).None? && |token| < 2 ==> PhonemeToViseme(phoneme, upper) == Rest)
    ensures PhonemeToViseme("", upper) == PhonemeToViseme("SIL", upper)
  {
    hide VisemeOf, Strip;
    var token := upper(Strip(phoneme));
    assert |token| >= 2 ==> token[..2] == [token[0], token[1]];
  }

  // ---- Smoothing ----

  /** Move from one value towards another, keeping the given share of the distance. */
  function Toward(a: real, b: real, smoothing: real): real { a + (b - a) * (1.0 - smoothing) }

  function Ease(prev: Mouth, cur: Mouth, smoothing: real): Mouth {
    Mouth(Toward(prev.open, cur.open, smoothing), Toward(prev.form, cur.form, smoothing))
  }

  /** The mouth after some visemes, starting from silence. */
  function Eased(visemes: seq<Viseme>, smoothing: real): Mouth {
    if visemes == [] then Params(Sil)
    else Ease(Eased(visemes[..|visemes| - 1], smoothing), Params(visemes[|visemes| - 1]), smoothing)
  }

  function RoundHalfEven(y: real): int {
    var f := y.Floor;
    var d := y - f as real;
    if d < 0.5 || (d == 0.5 && f % 2 == 0) then f else f + 1
  }

  function FourDecimals(x: real): real { RoundHalfEven(x * 10000.0) as real / 10000.0 }

  datatype Frame = Frame(time: int, viseme: Viseme, mouth: Mouth)

  function Visemes(cues: seq<Cue>, upper: string -> string): (r: seq<Viseme>)
    ensures |r| == |cues|
  {
    seq(|cues|, (k: nat) requires k < |cues| => CueViseme(cues[k], upper))
  }

  function FrameOf(cue: Cue, visemes: seq<Viseme>, smoothing: real): Frame
    requires visemes != []
  {
    var m := Eased(visemes, smoothing);
    Frame(if cue.start.Some? then cue.start.value else 0, visemes[|visemes| - 1], Rounded(m))
  }

  function Frames(cues: seq<Cue>, upper: string -> string, smoothing: real): (r: seq<Frame>)
    ensures |r| == if cues == [] then 1 else |cues|
  {
    if cues == [] then [Frame(0, Sil, Params(Sil))]
    else seq(|cues|, (k: nat) requires k < |cues| => FrameOf(cues[k], Visemes(cues, upper)[..k + 1], smoothing))
  }

  /** One smoothed frame for each cue; a single closed frame when there is none. */
  method BuildVisemeTimeline(cues: seq<Cue>, upper: string -> string, smoothing: real) returns (timeline: seq<Frame>)
    ensures timeline == Frames(cues, upper, smoothing)
  {
    hide PhonemeToViseme, Params, FourDecimals, Ease;
    if cues == [] {
      return [Frame(0, Sil, Params(Sil))];
    }
    timeline := [];
    var prev := Params(Sil);
    ghost var all := Visemes(cues, upper);
    for i := 0 to |cues|
      invariant prev == Eased(all[..i], smoothing)
      invariant |timeline| == i && forall k :: 0 <= k < i ==> timeline[k] == FrameOf(cues[k], all[..k + 1], smoothing)
    {
      var viseme := CueViseme(cues[i], upper);
      assert all[..i + 1][..i] == all[..i] && all[..i + 1][i] == viseme;
      var cur := Params(viseme);
      var mouth := Ease(prev, cur, smoothing);
      timeline := timeline + [Frame(if cues[i].start.Some? then cues[i].start.value else 0, viseme,
                                    Mouth(FourDecimals(mouth.open), FourDecimals(mouth.form)))];
      prev := mouth;
    }
  }

  /** The eleven mouths. */
  lemma Mouths()
    ensures Params(Sil) == Mouth(0.05, 0.5) && Params(Closed) == Mouth(0.02, 0.45) && Params(Open) == Mouth(0.75, 0.55)
    ensures Params(OpenBack) == Mouth(0.85, 0.4) && Params(Wide) == Mouth(0.55, 0.85) && Params(Mid) == Mouth(0.45, 0.6)
    ensures Params(Round) == Mouth(0.55, 0.25) && Params(Bite) == Mouth(0.3, 0.35) && Params(Teeth) == Mouth(0.25, 0.65)
    ensures Params(Tip) == Mouth(0.35, 0.5) && Params(Rest) == Mouth(0.15, 0.5)
  {}

  /** Each frame starts with its phoneme and shows that phoneme's viseme; a part that is missing is 0, or silence. */
  lemma FramesFollow(cues: seq<Cue>, upper: string -> string, smoothing: real, k: nat)
    requires k < |cues|
    ensures var f := Frames(cues, upper, smoothing)[k];
      && f.time == (match cues[k].start case Some(t) => t case None => 0)
      && f.viseme == PhonemeToViseme(match cues[k].phoneme case Some(p) => p case None => "SIL", upper)
    ensures Frames([], upper, smoothing) == [Frame(0, Sil, Params(Sil))]
  {
    hide PhonemeToViseme, Eased;
    assert Visemes(cues, upper)[..k + 1][k] == CueViseme(cues[k], upper);
  }

  predicate InRange(m: Mouth) { 0.02 <= m.open <= 0.85 && 0.25 <= m.form <= 0.85 }

  /** A product, named so that the lemmas below can treat it as a term. */
  function Times(a: real, b: real): real { a * b }

  lemma Scale(a: real, b: real, c: real)
    requires a <= b && 0.0 <= c
    ensures Times(a, c) <= Times(b, c)
  {}

  lemma AsMix(a: real, b: real, s: real)
    ensures Toward(a, b, s) == Times(a, s) + Times(b, 1.0 - s)
  {}

  /** A move is monotone in where it starts and where it goes. */
  lemma TowardMonotone(a: real, b: real, a': real, b': real, s: real)
    requires a <= a' && b <= b' && 0.0 <= s <= 1.0
    ensures Toward(a, b, s) <= Toward(a', b', s)
  {
    hide Toward, Times;
    Scale(a, a', s);
    Scale(b, b', 1.0 - s);
    AsMix(a, b, s);
    AsMix(a', b', s);
  }

  lemma TowardItself(a: real, s: real)
    ensures Toward(a, a, s) == a
  {}

  lemma Between(a: real, b: real, s: real, lo: real, hi: real)
    requires lo <= a <= hi && lo <= b <= hi && 0.0 <= s <= 1.0
    ensures lo <= Toward(a, b, s) <= hi
  {
    hide Toward;
    TowardMonotone(lo, lo, a, b, s);
    TowardMonotone(a, b, hi, hi, s);
    TowardItself(lo, s);
    TowardItself(hi, s);
  }

  lemma ParamsInRange(v: Viseme)
    ensures InRange(Params(v))
  {}

  lemma {:induction false} EasedInRange(visemes: seq<Viseme>, smoothing: real)
    requires 0.0 <= smoothing <= 1.0
    ensures InRange(Eased(visemes, smoothing))
  {
    hide Params, Toward;
    ParamsInRange(Sil);
    if visemes != [] {
      var last := |visemes| - 1;
      ParamsInRange(visemes[last]);
      EasedInRange(visemes[..last], smoothing);
      var prev, cur := Eased(visemes[..last], smoothing), Params(visemes[last]);
      Between(prev.open, cur.open, smoothing, 0.02, 0.85);
      Between(prev.form, cur.form, smoothing, 0.25, 0.85);
    }
  }

  /** The most negative smoothing whose overshoot the rounding still hides. */
  const SLACK := 1.0 / 16601.0

  lemma SmallProduct(s: real, t: real, w: real, e: real)
    requires -SLACK <= s <= 0.0 && -w <= t <= w && w <= 16601.0 * e
    ensures -e <= Times(s, t) <= e
  {
    Scale(t, w, -s);
    Scale(-w, t, -s);
    Scale(-s, SLACK, w);
    assert Times(w, -s) == Times(-s, w);
    assert Times(-w, -s) == -Times(w, -s);
    assert Times(t, -s) == -Times(s, t);
  }

  lemma AsShift(a: real, b: real, s: real)
    ensures Toward(a, b, s) == b + Times(s, a - b)
  {}

  /** A move from within a margin of a range to a point of the range stays within the margin. */
  lemma StaysNear(a: real, b: real, s: real, lo: real, hi: real, e: real)
    requires lo - e <= a <= hi + e && lo <= b <= hi && -SLACK <= s <= 1.0
    requires 0.0 <= e && hi - lo + e <= 16601.0 * e
    ensures lo - e <= Toward(a, b, s) <= hi + e
  {
    hide Toward, Times;
    if s >= 0.0 {
      Between(a, b, s, lo - e, hi + e);
    } else {
      SmallProduct(s, a - b, hi - lo + e, e);
      AsShift(a, b, s);
    }
  }

  /** Within half a unit of the range. */
  predicate NearRange(m: Mouth) { 0.01995 <= m.open <= 0.85005 && 0.24995 <= m.form <= 0.85005 }

  lemma {:induction false} EasedNearRange(visemes: seq<Viseme>, smoothing: real)
    requires -SLACK <= smoothing <= 1.0
    ensures NearRange(Eased(visemes, smoothing))
  {
    hide Params, Toward;
    ParamsInRange(Sil);
    if visemes != [] {
      var last := |visemes| - 1;
      ParamsInRange(visemes[last]);
      EasedNearRange(visemes[..last], smoothing);
      var prev, cur := Eased(visemes[..last], smoothing), Params(visemes[last]);
      StaysNear(prev.open, cur.open, smoothing, 0.02, 0.85, 0.00005);
      StaysNear(prev.form, cur.form, smoothing, 0.25, 0.85, 0.00005);
    }
  }

  /** Rounding to four decimals moves a value by at most half a unit, and over no four-decimal bound. */
  lemma {:induction false} FourDecimalsNear(x: real, lo: int, hi: int)
    requires lo as real <= x * 10000.0 <= hi as real
    ensures lo as real / 10000.0 <= FourDecimals(x) <= hi as real / 10000.0
    ensures -0.00005 <= FourDecimals(x) - x <= 0.00005
  {
    var y := x * 10000.0;
    assert lo <= RoundHalfEven(y) <= hi;
    assert -0.5 <= RoundHalfEven(y) as real - y <= 0.5;
  }

  /** What rounds into a range with even ends, ties going inward. */
  lemma RoundsInto(y: real, lo: int, hi: int)
    requires lo % 2 == 0 && hi % 2 == 0
    ensures lo <= RoundHalfEven(y) <==> lo as real - 0.5 <= y
    ensures RoundHalfEven(y) <= hi <==> y <= hi as real + 0.5
  {}

  lemma FourDecimalsInto(x: real, lo: int, hi: int)
    requires lo % 2 == 0 && hi % 2 == 0
    ensures lo as real / 10000.0 <= FourDecimals(x) <= hi as real / 10000.0
      <==> lo as real - 0.5 <= x * 10000.0 <= hi as real + 0.5
  {
    hide RoundHalfEven;
    RoundsInto(x * 10000.0, lo, hi);
    TenThousandths(lo, RoundHalfEven(x * 10000.0));
    TenThousandths(RoundHalfEven(x * 10000.0), hi);
  }

  lemma TenThousandths(a: int, b: int)
    ensures a as real / 10000.0 <= b as real / 10000.0 <==> a <= b
  {}

  function Rounded(m: Mouth): Mouth { Mouth(FourDecimals(m.open), FourDecimals(m.form)) }

  /** A rounded mouth is in range exactly when the mouth is within half a unit of it. */
  lemma RoundedInRange(m: Mouth)
    ensures InRange(Rounded(m)) <==> NearRange(m)
  {
    hide FourDecimals;
    FourDecimalsInto(m.open, 200, 8500);
    FourDecimalsInto(m.form, 2500, 8500);
  }

  predicate AllInRange(frames: seq<Frame>) { forall f | f in frames :: InRange(f.mouth) }

  /** Every frame's mouth is in range, whatever the phonemes. */
  lemma {:induction false} TimelineInRange(cues: seq<Cue>, upper: string -> string, smoothing: real)
    requires -SLACK <= smoothing <= 1.0
    ensures AllInRange(Frames(cues, upper, smoothing))
  {
    hide Eased, FourDecimals;
    var frames, all := Frames(cues, upper, smoothing), Visemes(cues, upper);
    forall k | 0 <= k < |cues|
      ensures InRange(frames[k].mouth)
    {
      EasedNearRange(all[..k + 1], smoothing);
      RoundedInRange(Eased(all[..k + 1], smoothing));
    }
    ParamsInRange(Sil);
  }

  // ---- Holding a viseme ----

  function Hold(v: Viseme, n: nat): seq<Viseme> { seq(n, _ => v) }

  function Pow(s: real, n: nat): real { if n == 0 then 1.0 else s * Pow(s, n - 1) }

  /** Two moves towards the same value are one. */
  lemma EaseTwice(a: Mouth, b: Mouth, p: real, s: real, q: real)
    requires q == s * p
    ensures Ease(Ease(a, b, p), b, s) == Ease(a, b, q)
  {
    TowardTwice(a.open, b.open, p, s);
    TowardTwice(a.form, b.form, p, s);
  }

  lemma TowardTwice(a: real, b: real, p: real, s: real)
    ensures Toward(Toward(a, b, p), b, s) == Toward(a, b, s * p)
  {
    FromTarget(a, b, p);
    FromTarget(Toward(a, b, p), b, s);
    FromTarget(a, b, s * p);
    assert s * (p * (a - b)) == (s * p) * (a - b);
  }

  lemma FromTarget(a: real, b: real, s: real)
    ensures Toward(a, b, s) == b + s * (a - b)
  {}

  /** Holding one viseme, the distance to its mouth shrinks by the smoothing factor at every frame. */
  lemma {:induction false} HeldViseme(v: Viseme, n: nat, s: real)
    ensures Eased(Hold(v, n), s) == Ease(Params(Sil), Params(v), Pow(s, n))
  {
    hide Params, Ease;
    var all := Hold(v, n);
    if n == 0 {
      EaseNot(Params(Sil), Params(v));
    } else {
      assert all[..n - 1] == Hold(v, n - 1) && all[n - 1] == v;
      HeldViseme(v, n - 1, s);
      EaseTwice(Params(Sil), Params(v), Pow(s, n - 1), s, Pow(s, n));
      assert Eased(all, s) == Ease(Eased(Hold(v, n - 1), s), Params(v), s);
    }
  }

  lemma EaseNot(a: Mouth, b: Mouth)
    ensures Ease(a, b, 1.0) == a
  {}

  lemma {:induction false} Bernoulli(s: real, n: nat)
    requires s >= 1.0
    ensures Pow(s, n) >= 1.0 + n as real * (s - 1.0)
  {
    if n > 0 {
      Bernoulli(s, n - 1);
      BernoulliStep(s - 1.0, Pow(s, n - 1), (n - 1) as real);
    }
  }

  lemma BernoulliStep(d: real, p: real, k: real)
    requires d >= 0.0 && k >= 0.0 && p >= 1.0 + k * d
    ensures (1.0 + d) * p >= 1.0 + (k + 1.0) * d
  {
    hide Times;
    Scale(0.0, k, d);
    Scale(1.0, p, d);
    Spelt(0.0, d);
    Spelt(1.0, d);
    Spelt(k, d);
    Spelt(p, d);
    assert (1.0 + d) * p == p + p * d;
    assert (k + 1.0) * d == k * d + d;
  }

  lemma Spelt(a: real, b: real)
    ensures Times(a, b) == a * b
  {}

  lemma Enough(d: real) returns (n: nat)
    requires d > 0.0
    ensures n as real * d >= 1.0
  {
    var q := 1.0 / d;
    n := q.Floor + 1;
    assert (n as real - q) * d >= 0.0;
    assert q * d == 1.0;
  }

  /** Above 1 a held open viseme is left further behind at every frame, until the mouth is far below the range. */
  lemma {:induction false} Overshoots(s: real) returns (visemes: seq<Viseme>)
    requires s > 1.0
    ensures Eased(visemes, s).open < 0.01995
  {
    var n := Enough(s - 1.0);
    Bernoulli(s, n);
    HeldViseme(OpenBack, n, s);
    FromTarget(0.05, 0.85, Pow(s, n));
    visemes := Hold(OpenBack, n);
  }

  /** Outside [0, 1] some phonemes drive the mouth out of range: a held closed or a held open one. */
  lemma {:induction false} OutOfRange(s: real) returns (visemes: seq<Viseme>)
    requires s < 0.0 || s > 1.0
    ensures !InRange(Eased(visemes, s))
  {
    if s < 0.0 {
      visemes := [Closed];
      assert Eased([], s) == Params(Sil) && visemes[..0] == [];
      assert Eased(visemes, s) == Ease(Params(Sil), Params(Closed), s);
    } else {
      visemes := Overshoots(s);
    }
  }

  /** Before rounding, the mouth stays in range on every input exactly when the smoothing is a proportion. */
  lemma EasedRangeIff(s: real)
    ensures (forall visemes :: InRange(Eased(visemes, s))) <==> 0.0 <= s <= 1.0
  {
    if 0.0 <= s <= 1.0 {
      forall visemes
        ensures InRange(Eased(visemes, s))
      {
        EasedInRange(visemes, s);
      }
    } else {
      var visemes := OutOfRange(s);
    }
  }

  // ---- Alternating visemes ----

  /** Open and closed in turn: with negative smoothing each overshoots the other. */
  function Alternate(n: nat): seq<Viseme> {
    if n == 0 then [] else Alternate(n - 1) + [OpenBack, Closed]
  }

  function Pair(x: real, s: real): real { Toward(Toward(x, 0.85, s), 0.02, s) }

  lemma AlternateOnce(n: nat, s: real)
    requires n > 0
    ensures Eased(Alternate(n), s).open == Pair(Eased(Alternate(n - 1), s).open, s)
  {
    var before, all := Alternate(n - 1), Alternate(n);
    assert all[..|all| - 1] == before + [OpenBack] && all[|all| - 1] == Closed;
    assert (before + [OpenBack])[..|before|] == before && (before + [OpenBack])[|before|] == OpenBack;
  }

  lemma PairSpelt(x: real, s: real)
    ensures Pair(x, s) == 0.02 + 0.83 * s + (s * s) * (x - 0.85)
  {
    FromTarget(x, 0.85, s);
    FromTarget(Toward(x, 0.85, s), 0.02, s);
    assert s * (s * (x - 0.85)) == (s * s) * (x - 0.85);
  }

  /** A pair brings the mouth nearer to the limit of alternation by the square of the smoothing. */
  lemma PairContracts(x: real, s: real, u: real)
    requires u * (1.0 + s) == s
    ensures var limit := 0.02 + 0.83 * u; Pair(x, s) - limit == (s * s) * (x - limit)
  {
    PairSpelt(x, s);
    var w, limit := s * s, 0.02 + 0.83 * u;
    assert u * w == s * s + u - s by {
      assert u * (1.0 + s) * (1.0 - s) == s * (1.0 - s);
    }
    assert w * (x - limit) == w * x - 0.02 * w - 0.83 * (u * w);
    assert w * (x - 0.85) == w * x - 0.85 * w;
  }

  lemma {:induction false} AlternateTends(n: nat, s: real, u: real)
    requires u * (1.0 + s) == s
    ensures var limit := 0.02 + 0.83 * u;
      Eased(Alternate(n), s).open - limit == Pow(s * s, n) * (0.05 - limit)
  {
    hide Pair, Eased;
    var limit := 0.02 + 0.83 * u;
    if n == 0 {
      StartsSilent(s);
    } else {
      AlternateTends(n - 1, s, u);
      AlternateOnce(n, s);
      PairContracts(Eased(Alternate(n - 1), s).open, s, u);
      Regroup(s * s, Pow(s * s, n - 1), 0.05 - limit);
    }
  }

  lemma StartsSilent(s: real)
    ensures Eased([], s) == Params(Sil)
  {}

  lemma Regroup(a: real, b: real, c: real)
    ensures a * (b * c) == (a * b) * c
  {}

  lemma {:induction false} PowVanishes(w: real, n: nat)
    requires 0.0 <= w <= 0.5
    ensures 0.0 <= Pow(w, n) && (n as real + 1.0) * Pow(w, n) <= 1.0
  {
    if n > 0 {
      PowVanishes(w, n - 1);
      VanishStep(w, Pow(w, n - 1), n as real);
    }
  }

  lemma VanishStep(w: real, p: real, k: real)
    requires 0.0 <= w <= 0.5 && 0.0 <= p && 1.0 <= k && k * p <= 1.0
    ensures 0.0 <= w * p && (k + 1.0) * (w * p) <= 1.0
  {
    hide Times;
    Scale(0.0, w, p);
    Scale(w, 0.5, p);
    Scale(1.0, k, p);
    Spelt(0.0, p);
    Spelt(w, p);
    Spelt(0.5, p);
    Spelt(1.0, p);
    Spelt(k, p);
    var x := w * p;
    assert x <= 0.5 * p;
    Scale(x, 0.5 * p, k + 1.0);
    Spelt(x, k + 1.0);
    Spelt(0.5 * p, k + 1.0);
    assert (0.5 * p) * (k + 1.0) == 0.5 * (k * p) + 0.5 * p;
  }

  lemma SmallSquare(s: real)
    requires -0.0001 < s < 0.0
    ensures 0.0 <= s * s <= 0.5
  {
    Scale(-s, 1.0, -s);
    assert Times(-s, -s) == s * s;
  }

  lemma Cancel(a: real, b: real, t: real)
    requires 0.0 < t && a * t < b * t
    ensures a < b
  {
    if a >= b {
      Spelt(a, t);
      Spelt(b, t);
      Scale(b, a, t);
    }
  }

  lemma Below(p: real, n: nat, d: real, gap: real)
    requires 0.0 <= p && (n as real + 1.0) * p <= 1.0 && n as real * gap >= 1.0 && 0.0 < gap && 0.0 <= d <= 1.0
    ensures p * d < gap
  {
    var k := n as real + 1.0;
    assert k * gap == n as real * gap + gap;
    assert p * k == k * p && gap * k == k * gap;
    Cancel(p, gap, k);
    Scale(d, 1.0, p);
    assert Times(d, p) == p * d;
  }

  lemma FarBelow(s: real)
    requires s <= -0.0001
    ensures Eased(Alternate(1), s).open < 0.01995
  {
    hide Eased, Pair;
    AlternateOnce(1, s);
    StartsSilent(s);
    PairSpelt(0.05, s);
    SquareNonNegative(s);
  }

  lemma SquareNonNegative(s: real)
    ensures s * s >= 0.0
  {}

  lemma JustBelow(s: real) returns (n: nat)
    requires -0.0001 < s < -SLACK
    ensures Eased(Alternate(n), s).open < 0.01995
  {
    hide Eased, Alternate, Pow;
    var u := s / (1.0 + s);
    LimitBelow(s, u);
    var limit := 0.02 + 0.83 * u;
    n := Enough(0.01995 - limit);
    SmallSquare(s);
    PowVanishes(s * s, n);
    AlternateTends(n, s, u);
    Below(Pow(s * s, n), n, 0.05 - limit, 0.01995 - limit);
  }

  /** Below the slack an alternation falls under the range by more than the rounding hides. */
  lemma {:induction false} Undershoots(s: real) returns (visemes: seq<Viseme>)
    requires s < -SLACK
    ensures Eased(visemes, s).open < 0.01995
  {
    hide Eased, Alternate;
    if s <= -0.0001 {
      FarBelow(s);
      visemes := Alternate(1);
    } else {
      var n := JustBelow(s);
      visemes := Alternate(n);
    }
  }

  lemma LimitBelow(s: real, u: real)
    requires -0.0001 < s < -SLACK && u == s / (1.0 + s)
    ensures u * (1.0 + s) == s && -1.0 <= 0.83 * u < -0.00005
  {
    var t := 1.0 + s;
    assert u * t == s;
    var b := -0.00005 / 0.83;
    assert s < b * t;
    Cancel(u, b, t);
    assert -1.0 * t < s;
    Cancel(-1.0, u, t);
  }

  // ---- Which smoothing keeps the returned frames in range ----

  /** A phoneme for each viseme. */
  function Token(v: Viseme): string {
    match v
    case Sil => "SIL"
    case Closed => "B"
    case Open => "HH"
    case OpenBack => "AA"
    case Wide => "AE"
    case Mid => "AH"
    case Round => "AO"
    case Bite => "F"
    case Teeth => "S"
    case Tip => "L"
    case Rest => "D"
  }

  /** Upper-casing keeps these tokens, which are upper-case letters. */
  predicate KeepsTokens(upper: string -> string) { forall v: Viseme :: upper(Token(v)) == Token(v) }

  function CuesFor(visemes: seq<Viseme>): (r: seq<Cue>)
    ensures |r| == |visemes|
  {
    seq(|visemes|, (k: nat) requires k < |visemes| => Cue(Some(Token(visemes[k])), None))
  }

  lemma TokenNames(v: Viseme)
    ensures VisemeOf(Token(v)) == Some(v) && Strip(Token(v)) == Token(v) != ""
  {
    StripTrimmed(Token(v));
  }

  /** Every sequence of visemes comes from some phonemes. */
  lemma AllVisemesOccur(visemes: seq<Viseme>, upper: string -> string)
    requires KeepsTokens(upper)
    ensures Visemes(CuesFor(visemes), upper) == visemes
  {
    hide VisemeOf, Token, Strip;
    forall k | 0 <= k < |visemes|
      ensures Visemes(CuesFor(visemes), upper)[k] == visemes[k]
    {
      TokenNames(visemes[k]);
      assert upper(Token(visemes[k])) == Token(visemes[k]);
    }
  }

  /** A mouth more than half a unit too far closed shows in the last frame. */
  lemma ShowsInFrames(visemes: seq<Viseme>, upper: string -> string, s: real)
    requires KeepsTokens(upper) && Eased(visemes, s).open < 0.01995
    ensures !AllInRange(Frames(CuesFor(visemes), upper, s))
  {
    hide Token, CuesFor, FourDecimals, KeepsTokens;
    var cues := CuesFor(visemes);
    var frames := Frames(cues, upper, s);
    AllVisemesOccur(visemes, upper);
    var last := |visemes| - 1;
    assert visemes[..last + 1] == visemes;
    RoundedInRange(Eased(visemes, s));
    assert frames[last] in frames;
  }

  /** The frames returned are in range on every input if and only if the smoothing is at most 1 and hardly negative. */
  lemma {:induction false} RangeIff(upper: string -> string, s: real)
    requires KeepsTokens(upper)
    ensures (forall cues :: AllInRange(Frames(cues, upper, s))) <==> -1.0 / 16601.0 <= s <= 1.0
  {
    hide Eased, Frames, AllInRange, KeepsTokens;
    if -SLACK <= s <= 1.0 {
      forall cues
        ensures AllInRange(Frames(cues, upper, s))
      {
        TimelineInRange(cues, upper, s);
      }
    } else {
      var visemes: seq<Viseme>;
      if s > 1.0 {
        visemes := Overshoots(s);
      } else {
        visemes := Undershoots(s);
      }
      ShowsInFrames(visemes, upper, s);
      assert !AllInRange(Frames(CuesFor(visemes), upper, s));
    }
  }

  // ---- End to end ----

  function Cues(stamps: seq<Stamp>): (r: seq<Cue>)
    ensures |r| == |stamps|
  {
    seq(|stamps|, (k: nat) requires k < |stamps| => Cue(Some(stamps[k].phoneme), Some(stamps[k].start)))
  }

  /** From text to frames: one for each phoneme, in time order and within the audio. */
  lemma {:induction false} EndToEnd(text: string, total: int, lower: string -> string,
                                    upper: string -> string, smoothing: real)
    requires total >= 0 && -SLACK <= smoothing <= 1.0
    ensures var stamps := Estimated(text, total, lower); var frames := Frames(Cues(stamps), upper, smoothing);
      && |frames| == |stamps| > 0 && frames[0].time == 0
      && (forall k | 0 <= k < |frames| :: 0 <= frames[k].time <= total && InRange(frames[k].mouth))
      && (forall k | 0 < k < |frames| :: frames[k - 1].time <= frames[k].time)
  {
    hide Rounded, Eased, InRange, Words, PhonemesOf, Spread;
    var stamps := Estimated(text, total, lower);
    var frames := Frames(Cues(stamps), upper, smoothing);
    TimelineInRange(Cues(stamps), upper, smoothing);
    if Words(text) != [] {
      var phonemes := PhonemesOf(Words(text), lower);
      PhonemesAreKnown(Words(text), lower);
      Contiguous(phonemes, total);
      WithinTotal(phonemes, total);
    }
  }

  lemma WithinTotal(phonemes: seq<string>, total: int)
    requires phonemes != [] && total >= 0
    ensures forall k | 0 <= k < |phonemes| ::
      0 <= Spread(phonemes, total)[k].start <= Spread(phonemes, total)[k].end <= total
  {
    forall k | 0 <= k < |phonemes|
      ensures 0 <= Spread(phonemes, total)[k].start <= Spread(phonemes, total)[k].end <= total
    {
      Scaled(k, k + 1, StepLength(|phonemes|, total));
    }
  }
}
