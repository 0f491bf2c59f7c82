/** Why a rule made by SimilarPattern is safe: whatever it matches is read like the payload it was made from. */
module SimilarWords {
  import opened Ascii
  import opened Utf8
  import opened ShellWords
  import opened ShellViews
  import opened SimilarPattern
  import ShellJoining
  import ShellAcceptance

  // ----- Fields --------------------------------------------------------------------------------------------

  predicate IsField(s: string) {
    s != "" && ' ' !in s && '\'' !in s && '"' !in s
  }

  predicate AreFields(fields: seq<string>) {
    forall i | 0 <= i < |fields| :: IsField(fields[i])
  }

  predicate Unquoted(s: string) {
    '\'' !in s && '"' !in s
  }

  lemma {:induction false} FieldsAreFields(s: string)
    requires Unquoted(s)
    ensures AreFields(SpacedFields(s))
    decreases |s|
  {
    if s != "" {
      if s[0] == ' ' {
        FieldsAreFields(s[1..]);
      } else {
        var n := FieldLength(s);
        FieldsAreFields(s[n..]);
        assert SpacedFields(s)[1..] == SpacedFields(s[n..]);
        assert forall i | 1 <= i < |SpacedFields(s)| :: SpacedFields(s)[i] == SpacedFields(s[n..])[i - 1];
      }
    }
  }

  lemma DigitsAreField(s: string)
    requires AllDigits(s)
    ensures IsField(s) && IsClean(s) && forall i | 0 <= i < |s| :: IsNameByte(s[i])
  {
    hide IsClean;
    PrintableIsClean(s);
  }

  lemma AlikeFields(a: seq<string>, b: seq<string>)
    requires Alike(a, b) && AreFields(a)
    ensures AreFields(b)
  {
  }

  lemma {:induction false} CleanFields(fields: seq<string>)
    ensures IsClean(Join(fields)) <==> forall i | 0 <= i < |fields| :: IsClean(fields[i])
    decreases |fields|
  {
    hide IsClean;
    if fields == [] {
      PrintableIsClean("");
    } else if |fields| > 1 {
      CleanFields(fields[1..]);
      CleanSplits(fields[0], ' ', Join(fields[1..]));
      assert forall i | 1 <= i < |fields| :: fields[i] == fields[1..][i - 1];
    }
  }

  lemma AlikeClean(a: seq<string>, b: seq<string>)
    requires Alike(a, b)
    ensures IsClean(Join(a)) <==> IsClean(Join(b))
  {
    hide IsClean, AllDigits, Join;
    CleanFields(a);
    CleanFields(b);
    forall i | 0 <= i < |a|
      ensures IsClean(a[i]) <==> IsClean(b[i])
    {
      if a[i] != b[i] {
        DigitsAreField(a[i]);
        DigitsAreField(b[i]);
      }
    }
  }

  // ----- Two readers side by side ---------------------------------------------------------------------

  predicate HasDigit(s: string) {
    exists i | 0 <= i < |s| :: IsDigit(s[i])
  }

  /** The same value, or two values with digits. */
  predicate Near(v: string, w: string) {
    v == w || (HasDigit(v) && HasDigit(w))
  }

  predicate NearWords(a: seq<Word>, b: seq<Word>) {
    |a| == |b| && forall i | 0 <= i < |a| :: Near(a[i].value, b[i].value)
  }

  predicate NearDrafts(d: Draft, e: Draft) {
    Near(d.value, e.value) && (d.raw == "" <==> e.raw == "")
  }

  predicate Beside(s: State, t: State) {
    match s
    case Between(ws, _) => t.Between? && NearWords(ws, t.words)
    case Inside(ws, d, dollar) => t.Inside? && NearWords(ws, t.words) && NearDrafts(d, t.draft) && dollar == t.dollar
    case Escaping(ws, d) => t.Escaping? && NearWords(ws, t.words) && NearDrafts(d, t.draft)
    case Quoted(_, _, _, _) => false
    case Refused(_) => t.Refused?
  }

  lemma HasDigitMore(v: string, x: string)
    ensures HasDigit(v) || HasDigit(x) ==> HasDigit(v + x)
  {
    if HasDigit(v) {
      var i :| 0 <= i < |v| && IsDigit(v[i]);
      assert (v + x)[i] == v[i];
    } else if HasDigit(x) {
      var i :| 0 <= i < |x| && IsDigit(x[i]);
      assert (v + x)[|v| + i] == x[i];
    }
  }

  lemma NearMore(v: string, w: string, x: string)
    requires Near(v, w)
    ensures Near(v + x, w + x)
  {
    hide HasDigit;
    HasDigitMore(v, x);
    HasDigitMore(w, x);
  }

  lemma NearWordsMore(a: seq<Word>, b: seq<Word>, d: Draft, e: Draft)
    requires NearWords(a, b) && NearDrafts(d, e)
    ensures NearWords(a + [d.ToWord()], b + [e.ToWord()])
  {
  }

  lemma BesideInside(ws: seq<Word>, d: Draft, us: seq<Word>, e: Draft, c: char)
    requires NearWords(ws, us) && NearDrafts(d, e) && !IsQuote(c)
    ensures Beside(StepInside(ws, d, c), StepInside(us, e, c))
  {
    hide NearWords, Near;
    NearMore(d.value, e.value, [c]);
  }

  lemma BesideStep(s: State, t: State, c: char)
    requires Beside(s, t) && !IsQuote(c)
    ensures Beside(Step(s, c), Step(t, c))
  {
    hide NearWords, Near, StepInside, StepQuoted, StartsExpansion;
    match s
    case Between(ws, at) =>
      if c != ' ' {
        NearSame("");
        BesideInside(ws, NewDraft.(start := at), t.words, NewDraft.(start := t.at), c);
      }
    case Inside(ws, d, _) =>
      if c == ' ' {
        NearWordsMore(ws, t.words, d, t.draft);
      } else {
        BesideInside(ws, d, t.words, t.draft, c);
      }
    case Escaping(ws, d) => NearMore(d.value, t.draft.value, [c]);
    case _ =>
  }

  lemma NearSame(v: string)
    ensures Near(v, v)
  {
  }

  lemma {:induction false} BesideRun(s: State, t: State, x: string)
    requires Beside(s, t) && Unquoted(x)
    ensures Beside(Run(s, x), Run(t, x))
    decreases |x|
  {
    hide Beside, Step;
    if x != "" {
      BesideStep(s, t, x[0]);
      BesideRun(Step(s, x[0]), Step(t, x[0]), x[1..]);
    }
  }

  /** Where a field begins. */
  predicate AtField(s: State) {
    s.Between? || (s.Inside? && !s.dollar) || s.Refused?
  }

  lemma AfterSpaceAtField(s: State)
    requires !s.Quoted?
    ensures AtField(Step(s, ' '))
  {
  }

  /** A number read at the beginning of a field. */
  lemma NumberRun(s: State, x: string)
    requires AtField(s) && AllDigits(x)
    ensures s.Between? ==>
      Run(s, x) == Inside(s.words, NewDraft.(start := s.at, raw := x, value := x, bare := true), false)
    ensures s.Inside? ==>
      Run(s, x) == Inside(s.words, s.draft.(raw := s.draft.raw + x, value := s.draft.value + x, bare := true), false)
    ensures s.Refused? ==> Run(s, x) == s
  {
    hide Run, StepInside;
    DigitsAreField(x);
    match s
    case Between(ws, at) =>
      assert Run(s, x) == Run(Inside(ws, NewDraft.(start := at), false), x) by {
        NumberStarts(ws, at, x);
      }
      ShellAcceptance.BareRuns(ws, NewDraft.(start := at), x);
      assert "" + x == x;
    case Inside(ws, d, _) => ShellAcceptance.BareRuns(ws, d, x);
    case Refused(_) => RunRefused(s, x);
  }

  lemma NumberStarts(ws: seq<Word>, at: nat, x: string)
    requires AllDigits(x)
    ensures Run(Between(ws, at), x) == Run(Inside(ws, NewDraft.(start := at), false), x)
  {
  }

  lemma BesideNumbers(s: State, t: State, x: string, y: string)
    requires Beside(s, t) && AtField(s) && AllDigits(x) && AllDigits(y)
    ensures Beside(Run(s, x), Run(t, y))
  {
    hide NearWords, Near, AllDigits, Run;
    NumberRun(s, x);
    NumberRun(t, y);
    NumberNotEmpty(x);
    NumberNotEmpty(y);
    if s.Inside? {
      NearNumbers(s.draft.value, x, t.draft.value, y);
    } else if s.Between? {
      NearNumbers("", x, "", y);
      assert "" + x == x && "" + y == y;
    }
  }

  lemma NumberNotEmpty(x: string)
    requires AllDigits(x)
    ensures x != ""
  {
  }

  lemma NearNumbers(v: string, x: string, w: string, y: string)
    requires AllDigits(x) && AllDigits(y)
    ensures Near(v + x, w + y)
  {
    hide HasDigit, AllDigits;
    NumberHasDigit(x);
    NumberHasDigit(y);
    HasDigitMore(v, x);
    HasDigitMore(w, y);
  }

  lemma NumberHasDigit(x: string)
    requires AllDigits(x)
    ensures HasDigit(x)
  {
    assert IsDigit(x[0]);
  }

  lemma BesideField(s: State, t: State, x: string, y: string)
    requires Beside(s, t) && AtField(s) && IsField(x)
    requires x == y || (AllDigits(x) && AllDigits(y))
    ensures Beside(Run(s, x), Run(t, y))
  {
    hide Beside, Run, AllDigits, AtField;
    if x == y {
      BesideRun(s, t, x);
    } else {
      BesideNumbers(s, t, x, y);
    }
  }

  lemma {:induction false} BesideFields(s: State, t: State, a: seq<string>, b: seq<string>)
    requires Beside(s, t) && AtField(s) && AreFields(a) && Alike(a, b)
    ensures Beside(Run(s, Join(a)), Run(t, Join(b)))
    decreases |a|
  {
    hide Beside, Run, AllDigits, AtField, IsField, Step;
    if a == [] {
      RunNothing(s);
      RunNothing(t);
    } else {
      assert IsField(a[0]);
      BesideField(s, t, a[0], b[0]);
      if |a| > 1 {
        var s', t' := Run(s, a[0]), Run(t, b[0]);
        RunField(s, a[0], Join(a[1..]));
        RunField(t, b[0], Join(b[1..]));
        BesideStep(s', t', ' ');
        BesideNotQuoted(s', t');
        AfterSpaceAtField(s');
        BesideFields(Step(s', ' '), Step(t', ' '), a[1..], b[1..]);
      }
    }
  }

  lemma RunNothing(s: State)
    ensures Run(s, "") == s
  {
  }

  lemma RunField(s: State, x: string, rest: string)
    ensures Run(s, x + " " + rest) == Run(Step(Run(s, x), ' '), rest)
  {
    hide Step;
    assert x + " " + rest == x + (" " + rest);
    RunJoins(s, x, " " + rest);
    assert (" " + rest)[1..] == rest;
  }

  lemma BesideNotQuoted(s: State, t: State)
    requires Beside(s, t)
    ensures !s.Quoted?
  {
  }

  /** Fields that differ in numbers only are read alike. */
  lemma AlikeTokenize(a: seq<string>, b: seq<string>)
    requires AreFields(a) && Alike(a, b)
    ensures Tokenize(Join(a)).Ok? <==> Tokenize(Join(b)).Ok?
    ensures Tokenize(Join(a)).Ok? ==> NearWords(Tokenize(Join(a)).value, Tokenize(Join(b)).value)
  {
    hide Run, Join, IsClean, Runes, NoneForbidden, NearWords;
    AlikeClean(a, b);
    ShellJoining.CleanTokenize(Join(a));
    ShellJoining.CleanTokenize(Join(b));
    NearNothing();
    BesideFields(Start, Start, a, b);
    BesideFinish(Run(Start, Join(a)), Run(Start, Join(b)));
  }

  lemma NearNothing()
    ensures NearWords([], [])
  {
  }

  lemma BesideFinish(s: State, t: State)
    requires Beside(s, t)
    ensures Finish(s).Ok? <==> Finish(t).Ok?
    ensures Finish(s).Ok? ==> NearWords(Finish(s).value, Finish(t).value)
  {
  }
}
