/**
  Which commands tokenizeShell of internal/policy/shell.go accepts, told by how each byte is quoted and
  by the bytes that are refused there.
 */
module ShellAcceptance {
  import opened Utf8
  import opened ShellWords
  import ShellJoining

  /** How a byte is quoted; the quotes and the backslashes that open something are Bare themselves. */
  datatype Quoting = Bare | Escaped | InSingle | InDouble

  function QuotingAfter(quoting: Quoting, c: char): Quoting {
    match quoting
    case Bare => if c == '\\' then Escaped else if c == '\'' then InSingle else if c == '"' then InDouble else Bare
    case Escaped => Bare
    case InSingle => if c == '\'' then Bare else InSingle
    case InDouble => if c == '"' then Bare else InDouble
  }

  /** How the byte at i is quoted, or would be if one followed. */
  function QuotingAt(s: string, i: nat): Quoting
    requires i <= |s|
  {
    if i == 0 then Bare else QuotingAfter(QuotingAt(s, i - 1), s[i - 1])
  }

  /** No byte of a word has been read before i since the last bare space. */
  predicate StartsWord(s: string, i: nat)
    requires i <= |s|
  {
    i == 0 || (s[i - 1] == ' ' && QuotingAt(s, i - 1) == Bare)
  }

  predicate IsLetterOrDigit(c: char) {
    'a' <= c <= 'z' || 'A' <= c <= 'Z' || '0' <= c <= '9'
  }

  /** A $ outside single quotes with a byte after it that makes it an expansion. */
  predicate IsExpansion(s: string, i: nat)
    requires i < |s|
  {
    && s[i] == '$' && (QuotingAt(s, i) == Bare || QuotingAt(s, i) == InDouble) && i + 1 < |s|
    && (s[i + 1] in {'(', '{', '?', '*', '@', '$', '!', '#', '-', '_'} || IsLetterOrDigit(s[i + 1]))
  }

  /** A byte that is refused where it stands, whatever comes after it. */
  predicate IsRefused(s: string, i: nat)
    requires i < |s|
  {
    match QuotingAt(s, i)
    case Bare =>
      || s[i] in {';', '|', '&', '>', '<', '`', '*', '?', '[', '(', ')', '#'}
      || (s[i] == '~' && StartsWord(s, i))
    case InDouble => s[i] == '`' || s[i] == '\\'
    case _ => false
  }

  /** Nothing is refused before i, and no byte from i on matters for that. */
  predicate FineBefore(s: string, i: nat)
    requires i <= |s|
  {
    && (forall k | 0 <= k < i :: !IsRefused(s, k))
    && (forall k | 0 <= k < i - 1 :: !IsExpansion(s, k))
  }

  // ----- The reader, told by the quoting ------------------------------------------------------------------

  /** A pending $ of the state is the byte before i. */
  predicate IsDollar(s: string, i: nat, quoting: Quoting, dollar: bool)
    requires i <= |s|
  {
    dollar <==> i > 0 && s[i - 1] == '$' && QuotingAt(s, i - 1) == quoting
  }

  predicate Follows(s: string, i: nat, state: State)
    requires i <= |s|
  {
    var quoting := QuotingAt(s, i);
    match state
    case Between(_, _) => quoting == Bare && StartsWord(s, i)
    case Inside(_, d, dollar) =>
      quoting == Bare && !StartsWord(s, i) && d.raw != "" && IsDollar(s, i, Bare, dollar)
    case Quoted(_, _, mark, dollar) =>
      || (mark == '\'' && quoting == InSingle && !dollar)
      || (mark == '"' && quoting == InDouble && IsDollar(s, i, InDouble, dollar))
    case Escaping(_, _) => quoting == Escaped
    case Refused(_) => false
  }

  lemma FollowsStep(s: string, i: nat, state: State)
    requires i < |s| && Follows(s, i, state) && !IsControlByte(s[i])
    ensures !IsRefused(s, i) && (i > 0 ==> !IsExpansion(s, i - 1)) <==> !Step(state, s[i]).Refused?
    ensures !Step(state, s[i]).Refused? ==> Follows(s, i + 1, Step(state, s[i]))
  {
  }

  lemma RunTo(s: string, i: nat)
    requires i < |s|
    ensures Run(Start, s[..i + 1]) == Step(Run(Start, s[..i]), s[i])
  {
    hide Step;
    assert s[..i + 1] == s[..i] + [s[i]];
    RunJoins(Start, s[..i], [s[i]]);
    RunOne(Run(Start, s[..i]), s[i]);
  }

  lemma {:induction false} FollowsRun(s: string, i: nat)
    requires i <= |s| && forall k | 0 <= k < |s| :: !IsControlByte(s[k])
    ensures FineBefore(s, i) <==> !Run(Start, s[..i]).Refused?
    ensures FineBefore(s, i) ==> Follows(s, i, Run(Start, s[..i]))
    decreases i
  {
    hide Run, Step, IsControlByte, IsRefused, IsExpansion, Follows;
    if i == 0 {
      StartFollows(s);
    } else {
      FollowsRun(s, i - 1);
      RunTo(s, i - 1);
      if FineBefore(s, i - 1) {
        FollowsStep(s, i - 1, Run(Start, s[..i - 1]));
      } else {
        StaysRefused(Run(Start, s[..i - 1]), s[i - 1]);
      }
    }
  }

  lemma StartFollows(s: string)
    ensures Follows(s, 0, Run(Start, s[..0])) && !Run(Start, s[..0]).Refused?
  {
  }

  lemma StaysRefused(state: State, c: char)
    requires state.Refused?
    ensures Step(state, c).Refused?
  {
  }

  lemma FinishFollows(s: string, state: State)
    requires Follows(s, |s|, state)
    ensures Finish(state).Ok? <==> QuotingAt(s, |s|) == Bare && ShellJoining.HasRead(state)
  {
  }

  /**
    A command is accepted if and only if it is clean text with something else than spaces, its quotes
    and escapes are complete, and no byte is refused where it stands.
   */
  lemma AcceptsExactly(input: string)
    ensures Tokenize(input).Ok? <==>
      && IsClean(input)
      && (exists i | 0 <= i < |input| :: input[i] != ' ')
      && QuotingAt(input, |input|) == Bare
      && (forall i | 0 <= i < |input| :: !IsRefused(input, i) && !IsExpansion(input, i))
  {
    hide Run, Tokenize, IsClean, IsRefused, IsExpansion, IsControlByte, QuotingAt, Follows, ShellJoining.HasRead;
    ShellJoining.CleanTokenize(input);
    if IsClean(input) {
      forall k | 0 <= k < |input|
        ensures !IsControlByte(input[k])
      {
        CleanByte(input, k);
      }
      FollowsRun(input, |input|);
      assert input[..|input|] == input;
      var state := Run(Start, input);
      ShellJoining.SpacesOnly(input, 0);
      LastIsNoExpansion(input);
      if FineBefore(input, |input|) {
        FinishFollows(input, state);
      } else {
        FinishRefused(state);
      }
    }
  }

  lemma CleanByte(s: string, k: nat)
    requires IsClean(s) && k < |s|
    ensures !IsControlByte(s[k])
  {
    hide IsClean;
    CleanBytes(s, k);
  }

  lemma LastIsNoExpansion(s: string)
    ensures s != "" ==> !IsExpansion(s, |s| - 1)
  {
  }

  lemma FinishRefused(state: State)
    requires state.Refused?
    ensures Finish(state).Err?
  {
  }

  // ----- Bare words and quoted segments ---------------------------------------------------------------------

  /** A printable byte that has no meaning of its own in a word. */
  predicate IsBareByte(c: char) {
    && 0x21 <= c as int <= 0x7E
    && c !in {';', '|', '&', '>', '<', '*', '?', '[', '(', ')', '#', '~', '$', '`', '\\', '\'', '"'}
  }

  lemma BareStep(words: seq<Word>, d: Draft, c: char)
    requires IsBareByte(c)
    ensures Step(Inside(words, d, false), c) ==
      Inside(words, d.(raw := d.raw + [c], value := d.value + [c], bare := true), false)
  {
  }

  lemma {:induction false} BareRuns(words: seq<Word>, d: Draft, x: string)
    requires forall i | 0 <= i < |x| :: IsBareByte(x[i])
    ensures Run(Inside(words, d, false), x) ==
      Inside(words, d.(raw := d.raw + x, value := d.value + x, bare := d.bare || x != ""), false)
    decreases |x|
  {
    hide Step, IsBareByte;
    if x == "" {
      assert d.raw + x == d.raw && d.value + x == d.value;
    } else {
      BareStep(words, d, x[0]);
      BareRuns(words, d.Plain(x[0]), x[1..]);
      assert d.raw + [x[0]] + x[1..] == d.raw + x && d.value + [x[0]] + x[1..] == d.value + x;
    }
  }

  /** Bytes without a meaning of their own make one word, which is what they say. */
  lemma BareWord(x: string)
    requires x != "" && forall i | 0 <= i < |x| :: IsBareByte(x[i])
    ensures Tokenize(x) == Ok([Word(x, 0, |x|, NoQuote, false)])
  {
    hide Run, StepInside, Runes, NoneForbidden, IsClean, Tokenize, Draft.ToWord;
    PrintableIsClean(x);
    ShellJoining.CleanTokenize(x);
    BareStarts(x);
    BareRuns([], NewDraft, x);
    assert "" + x == x;
    assert Run(Start, x) == Inside([], NewDraft.(raw := x, value := x, bare := true), false);
    BareDraft(x);
  }

  lemma BareDraft(x: string)
    ensures Finish(Inside([], NewDraft.(raw := x, value := x, bare := true), false)) ==
      Ok([Word(x, 0, |x|, NoQuote, false)])
  {
    var d := NewDraft.(raw := x, value := x, bare := true);
    assert d.ToWord() == Word(x, 0, |x|, NoQuote, false);
    assert [] + [d.ToWord()] == [d.ToWord()];
  }

  lemma BareStarts(x: string)
    requires x != "" && IsBareByte(x[0])
    ensures Run(Start, x) == Run(Inside([], NewDraft, false), x)
  {
  }

  /** A text that the quotes around it take as it is. */
  predicate IsPlainInQuotes(x: string, mark: char) {
    mark !in x && (mark == '"' ==> '`' !in x && '\\' !in x && '$' !in x)
  }

  lemma {:induction false} QuotedRuns(d: Draft, mark: char, x: string)
    requires mark == '\'' || mark == '"'
    requires IsPlainInQuotes(x, mark) && forall i | 0 <= i < |x| :: !IsControlByte(x[i])
    ensures Run(Quoted([], d, mark, false), x) ==
      Quoted([], d.(raw := d.raw + x, value := d.value + x), mark, false)
    decreases |x|
  {
    hide IsControlByte;
    if x == "" {
      assert d.raw + x == d.raw && d.value + x == d.value;
    } else {
      assert x[0] in x && forall c | c in x[1..] :: c in x;
      QuotedRuns(d.Literal(x[0]), mark, x[1..]);
      assert d.raw + [x[0]] + x[1..] == d.raw + x && d.value + [x[0]] + x[1..] == d.value + x;
    }
  }

  /** A text in quotes that take it as it is makes one word, whose value is the text. */
  lemma QuotedWord(x: string, mark: char)
    requires mark == '\'' || mark == '"'
    requires IsClean(x) && IsPlainInQuotes(x, mark)
    ensures Tokenize([mark] + x + [mark]) == Ok([Word(x, 0, |x| + 2, mark, false)])
  {
    hide Run, Runes, NoneForbidden, IsClean, Tokenize, Draft.ToWord, IsControlByte;
    var s := [mark] + x + [mark];
    forall i | 0 <= i < |x|
      ensures !IsControlByte(x[i])
    {
      CleanByte(x, i);
    }
    PrintableIsClean("");
    CleanSplits(x, mark, "");
    CleanSplits("", mark, x + [mark]);
    assert x + [mark] + "" == x + [mark] && "" + [mark] + (x + [mark]) == s;
    ShellJoining.CleanTokenize(s);
    var begun := NewDraft.OpenQuote(mark);
    RunJoins(Start, [mark] + x, [mark]);
    RunJoins(Start, [mark], x);
    RunOne(Start, mark);
    OpeningStep(mark);
    QuotedRuns(begun, mark, x);
    RunOne(Run(Start, [mark] + x), mark);
    QuotedDraft(x, mark);
  }

  lemma OpeningStep(mark: char)
    requires mark == '\'' || mark == '"'
    ensures Step(Start, mark) == Quoted([], NewDraft.OpenQuote(mark), mark, false)
  {
  }

  lemma QuotedDraft(x: string, mark: char)
    requires mark == '\'' || mark == '"'
    ensures var begun := NewDraft.OpenQuote(mark);
      var d := begun.(raw := begun.raw + x, value := begun.value + x);
      Finish(Step(Quoted([], d, mark, false), mark)) == Ok([Word(x, 0, |x| + 2, mark, false)])
  {
    var begun := NewDraft.OpenQuote(mark);
    var d := begun.(raw := begun.raw + x, value := begun.value + x).CloseQuote(mark);
    assert d.raw == [mark] + x + [mark] && d.value == x;
    assert d.ToWord() == Word(x, 0, |x| + 2, mark, false);
    assert [] + [d.ToWord()] == [d.ToWord()];
  }
}
