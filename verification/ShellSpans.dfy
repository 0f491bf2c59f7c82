/** Where the words of a command stand, and what their quote and mixed flags tell. */
module ShellSpans {
  import opened Utf8
  import opened ShellWords

  // ----- What a word's text looks like --------------------------------------------------------------

  /** Text without quotes, backslashes and spaces. */
  predicate IsBare(raw: string) {
    forall k | 0 <= k < |raw| :: raw[k] != ' ' && raw[k] != '\\' && !IsQuote(raw[k])
  }

  /** Exactly one quoted segment. */
  predicate IsOneSegment(raw: string) {
    |raw| >= 2 && IsQuote(raw[0]) && raw[|raw| - 1] == raw[0] && forall k | 1 <= k < |raw| - 1 :: raw[k] != raw[0]
  }

  /** Text that is neither, whatever follows in the same word. */
  predicate IsMessy(raw: string) {
    raw != "" && if IsQuote(raw[0]) then exists k | 1 <= k < |raw| - 1 :: raw[k] == raw[0] else !IsBare(raw)
  }

  /** What the flags of a word say about its text. */
  predicate Shaped(w: Word, raw: string) {
    if IsBare(raw) then w.value == raw && w.quote == NoQuote && !w.mixed
    else if IsOneSegment(raw) then raw == [w.quote] + w.value + [w.quote] && !w.mixed
    else w.mixed
  }

  /** The words stand in the text in order, apart from each other, with nothing but spaces around them. */
  ghost predicate Placed(words: seq<Word>, text: string) {
    && (forall i | 0 <= i < |words| ::
          words[i].start < words[i].end <= |text| && Shaped(words[i], text[words[i].start..words[i].end]))
    && (forall i | 0 < i < |words| :: words[i - 1].end < words[i].start)
    && (forall k | 0 <= k < |text| :: text[k] == ' ' || Covered(words, k))
  }

  predicate Covered(words: seq<Word>, k: nat) {
    exists i | 0 <= i < |words| :: words[i].start <= k < words[i].end
  }

  // ----- The draft of a word ------------------------------------------------------------------------

  predicate EndsMixed(d: Draft) {
    d.mixed || d.segments > 1 || (d.segments > 0 && d.bare)
  }

  predicate FirstSegment(d: Draft) {
    !d.mixed && d.segments == 1 && !d.bare && IsQuote(d.quote) && d.quote !in d.value
  }

  /** Outside quotes. */
  predicate Loose(d: Draft) {
    if IsMessy(d.raw) then EndsMixed(d)
    else if d.segments == 0 then
      !d.mixed && d.raw == d.value && IsBare(d.raw) && d.quote == NoQuote && d.bare == (d.raw != "")
    else FirstSegment(d) && d.raw == [d.quote] + d.value + [d.quote]
  }

  /** After a quote that is still open. */
  predicate Held(d: Draft, mark: char) {
    if IsMessy(d.raw) then EndsMixed(d) else FirstSegment(d) && d.quote == mark && d.raw == [mark] + d.value
  }

  lemma MessyStays(raw: string, c: char)
    requires IsMessy(raw)
    ensures IsMessy(raw + [c])
  {
    if IsQuote(raw[0]) {
      var k :| 1 <= k < |raw| - 1 && raw[k] == raw[0];
      assert (raw + [c])[k] == raw[k];
    } else {
      var k :| 0 <= k < |raw| && (raw[k] == ' ' || raw[k] == '\\' || IsQuote(raw[k]));
      assert (raw + [c])[k] == raw[k];
    }
  }

  /** After a word that was one segment, or a bare one, any quote or backslash makes it messy. */
  lemma MessyFrom(d: Draft, c: char)
    requires Loose(d) && d.raw != "" && (d.segments > 0 || c == ' ' || c == '\\' || IsQuote(c))
    ensures IsMessy(d.raw + [c])
  {
    var raw := d.raw + [c];
    if IsMessy(d.raw) {
      MessyStays(d.raw, c);
    } else if d.segments > 0 {
      assert raw[|raw| - 2] == raw[0];
    } else {
      assert raw[|raw| - 1] == c && raw[0] == d.raw[0];
    }
  }

  lemma LooseEmpty(at: nat)
    ensures Loose(NewDraft.(start := at))
  {
  }

  lemma LoosePlain(d: Draft, c: char)
    requires Loose(d) && c != ' ' && c != '\\' && !IsQuote(c)
    ensures Loose(d.Plain(c))
  {
    hide IsMessy;
    if IsMessy(d.raw) {
      MessyStays(d.raw, c);
    } else if d.segments > 0 {
      MessyFrom(d, c);
    } else {
      BareIsNotMessy(d.raw + [c]);
    }
  }

  lemma BareIsNotMessy(raw: string)
    requires IsBare(raw)
    ensures !IsMessy(raw)
  {
  }

  lemma LooseBackslash(d: Draft)
    requires Loose(d)
    ensures IsMessy(d.Backslash().raw) && EndsMixed(d.Backslash())
  {
    hide IsMessy;
    if d.raw != "" {
      MessyFrom(d, '\\');
    } else {
      MessyAlone('\\');
    }
  }

  lemma MessyAlone(c: char)
    ensures IsMessy("" + [c]) <==> c == ' ' || c == '\\'
  {
  }

  lemma LooseLiteral(d: Draft, c: char)
    requires IsMessy(d.raw) && EndsMixed(d)
    ensures Loose(d.Literal(c))
  {
    hide IsMessy;
    MessyStays(d.raw, c);
  }

  lemma HeldOpens(d: Draft, c: char)
    requires Loose(d) && IsQuote(c)
    ensures Held(d.OpenQuote(c), c)
  {
    hide IsMessy;
    if d.raw != "" {
      MessyFrom(d, c);
    } else {
      MessyAlone(c);
      NotMessyEmpty();
      assert d.raw + [c] == "" + [c] == [c] + d.value;
    }
  }

  lemma NotMessyEmpty()
    ensures !IsMessy("")
  {
  }

  lemma HeldLiteral(d: Draft, mark: char, c: char)
    requires Held(d, mark) && c != mark
    ensures Held(d.Literal(c), mark)
  {
    if IsMessy(d.raw) {
      MessyStays(d.raw, c);
    } else {
      var raw := d.raw + [c];
      assert [mark] + d.value + [c] == [mark] + (d.value + [c]);
      assert forall k | 1 <= k < |raw| - 1 :: raw[k] == d.value[k - 1];
    }
  }

  lemma HeldCloses(d: Draft, mark: char)
    requires Held(d, mark)
    ensures Loose(d.CloseQuote(mark))
  {
    if IsMessy(d.raw) {
      MessyStays(d.raw, mark);
    } else {
      var raw := d.raw + [mark];
      assert forall k | 1 <= k < |raw| - 1 :: raw[k] == d.value[k - 1];
    }
  }

  lemma LooseShaped(d: Draft)
    requires Loose(d) && d.raw != ""
    ensures Shaped(d.ToWord(), d.raw)
  {
  }

  // ----- The reader's state ------------------------------------------------------------------------

  ghost predicate Apart(words: seq<Word>, at: nat) {
    words != [] ==> words[|words| - 1].end < at
  }

  ghost predicate Follows(words: seq<Word>, d: Draft, text: string) {
    && d.start + |d.raw| == |text| && text[d.start..] == d.raw
    && Placed(words, text[..d.start]) && Apart(words, d.start)
  }

  /** What the reader knows after it has read a text. */
  ghost predicate Knows(state: State, text: string) {
    match state
    case Between(words, at) => at == |text| && Placed(words, text) && Apart(words, at)
    case Inside(words, d, _) => Follows(words, d, text) && d.raw != "" && Loose(d)
    case Quoted(words, d, mark, _) => Follows(words, d, text) && Held(d, mark)
    case Escaping(words, d) => Follows(words, d, text) && IsMessy(d.raw) && EndsMixed(d)
    case Refused(_) => true
  }

  lemma PlacedSpace(words: seq<Word>, text: string)
    requires Placed(words, text)
    ensures Placed(words, text + [' '])
  {
    hide Shaped;
    var longer := text + [' '];
    forall i | 0 <= i < |words|
      ensures Shaped(words[i], longer[words[i].start..words[i].end])
    {
      assert longer[words[i].start..words[i].end] == text[words[i].start..words[i].end];
    }
    forall k | 0 <= k < |longer|
      ensures longer[k] == ' ' || Covered(words, k)
    {
      if k < |text| {
        assert longer[k] == text[k];
      }
    }
  }

  lemma PlacedWord(words: seq<Word>, text: string, w: Word)
    requires w.start < w.end == |text| && Placed(words, text[..w.start]) && Apart(words, w.start)
    requires Shaped(w, text[w.start..])
    ensures Placed(words + [w], text)
  {
    hide Shaped, Covered;
    var before, all := text[..w.start], words + [w];
    forall i | 0 <= i < |all|
      ensures all[i].start < all[i].end <= |text| && Shaped(all[i], text[all[i].start..all[i].end])
    {
      if i < |words| {
        assert all[i] == words[i];
        assert before[words[i].start..words[i].end] == text[words[i].start..words[i].end];
      } else {
        assert text[w.start..w.end] == text[w.start..];
      }
    }
    forall k | 0 <= k < |text|
      ensures text[k] == ' ' || Covered(all, k)
    {
      CoveredMore(words, w, k);
      assert k < w.start ==> before[k] == text[k];
    }
  }

  lemma CoveredMore(words: seq<Word>, w: Word, k: nat)
    ensures Covered(words + [w], k) <==> Covered(words, k) || w.start <= k < w.end
  {
    var all := words + [w];
    assert all[|words|] == w;
    if Covered(words, k) {
      var i :| 0 <= i < |words| && words[i].start <= k < words[i].end;
      assert all[i] == words[i];
    }
  }

  lemma FollowsMore(words: seq<Word>, d: Draft, d': Draft, text: string, c: char)
    requires Follows(words, d, text) && d'.raw == d.raw + [c] && d'.start == d.start
    ensures Follows(words, d', text + [c])
  {
    assert (text + [c])[..d.start] == text[..d.start];
    assert (text + [c])[d.start..] == text[d.start..] + [c];
  }

  lemma FollowsFirst(words: seq<Word>, text: string)
    requires Placed(words, text) && Apart(words, |text|)
    ensures Follows(words, NewDraft.(start := |text|), text)
  {
    assert text[..|text|] == text;
  }

  lemma WordDone(words: seq<Word>, d: Draft, text: string)
    requires Follows(words, d, text) && Loose(d) && d.raw != ""
    ensures Placed(words + [d.ToWord()], text)
  {
    hide Shaped, Placed, Loose;
    LooseShaped(d);
    PlacedWord(words, text, d.ToWord());
  }

  lemma KnowsInside(words: seq<Word>, d: Draft, text: string, c: char)
    requires Follows(words, d, text) && Loose(d) && c != ' '
    ensures Knows(StepInside(words, d, c), text + [c])
  {
    hide Follows, Loose, Held, IsMessy, EndsMixed, IsControlByte, IsComposition;
    if IsQuote(c) {
      HeldOpens(d, c);
      FollowsMore(words, d, d.OpenQuote(c), text, c);
    } else if c == '\\' {
      LooseBackslash(d);
      FollowsMore(words, d, d.Backslash(), text, c);
    } else {
      LoosePlain(d, c);
      FollowsMore(words, d, d.Plain(c), text, c);
    }
  }

  lemma KnowsQuoted(words: seq<Word>, d: Draft, mark: char, text: string, c: char)
    requires Follows(words, d, text) && Held(d, mark)
    ensures Knows(StepQuoted(words, d, mark, c), text + [c])
  {
    hide Follows, Loose, Held, IsMessy, EndsMixed, IsControlByte;
    if c == mark {
      HeldCloses(d, mark);
      FollowsMore(words, d, d.CloseQuote(c), text, c);
    } else {
      HeldLiteral(d, mark, c);
      FollowsMore(words, d, d.Literal(c), text, c);
    }
  }

  lemma KnowsStep(state: State, text: string, c: char)
    requires Knows(state, text)
    ensures Knows(Step(state, c), text + [c])
  {
    hide Follows, Loose, Held, IsMessy, EndsMixed, IsControlByte, Placed, StepInside, StepQuoted, StartsExpansion;
    match state
    case Between(words, at) =>
      if c == ' ' {
        PlacedSpace(words, text);
      } else {
        FollowsFirst(words, text);
        LooseEmpty(at);
        KnowsInside(words, NewDraft.(start := at), text, c);
      }
    case Inside(words, d, _) =>
      if c == ' ' {
        WordDone(words, d, text);
        PlacedSpace(words + [d.ToWord()], text);
        FollowsLength(words, d, text);
      } else {
        KnowsInside(words, d, text, c);
      }
    case Quoted(words, d, mark, _) => KnowsQuoted(words, d, mark, text, c);
    case Escaping(words, d) =>
      LooseLiteral(d, c);
      FollowsMore(words, d, d.Literal(c), text, c);
    case Refused(_) =>
  }

  lemma FollowsLength(words: seq<Word>, d: Draft, text: string)
    requires Follows(words, d, text)
    ensures d.start + |d.raw| == |text|
  {
  }

  lemma {:induction false} KnowsRun(state: State, text: string, s: string)
    requires Knows(state, text)
    ensures Knows(Run(state, s), text + s)
    decreases |s|
  {
    hide Knows, Step;
    if s == "" {
      assert text + s == text;
    } else {
      KnowsStep(state, text, s[0]);
      KnowsRun(Step(state, s[0]), text + [s[0]], s[1..]);
      assert text + [s[0]] + s[1..] == text + s;
    }
  }

  /** The words of an accepted command lie in it as the tokenizer says, and their flags say what they look like. */
  lemma WordsArePlaced(input: string)
    ensures Tokenize(input).Ok? ==> Placed(Tokenize(input).value, input)
  {
    hide Follows, Loose, Placed, Run, IsClean, Runes, NoneForbidden;
    if Tokenize(input).Ok? {
      StartKnows();
      KnowsRun(Start, "", input);
      assert "" + input == input;
      var end := Run(Start, input);
      if end.Inside? {
        WordDone(end.words, end.draft, input);
      }
    }
  }

  lemma StartKnows()
    ensures Knows(Start, "")
  {
  }

  /** A word with a quote and without the mixed flag is one quoted segment, and so on. */
  lemma WordText(input: string, i: nat)
    requires Tokenize(input).Ok? && i < |Tokenize(input).value|
    ensures var w := Tokenize(input).value[i];
      && w.start < w.end <= |input|
      && (IsBare(input[w.start..w.end]) <==> w.quote == NoQuote && !w.mixed)
      && (IsOneSegment(input[w.start..w.end]) <==> w.quote != NoQuote && !w.mixed)
      && (w.quote == NoQuote && !w.mixed ==> input[w.start..w.end] == w.value)
      && (w.quote != NoQuote && !w.mixed ==> input[w.start..w.end] == [w.quote] + w.value + [w.quote])
  {
    hide Tokenize;
    WordsArePlaced(input);
  }
}
