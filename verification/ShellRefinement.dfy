/** Whatever the tokenizer of internal/policy/shell.go accepts, a POSIX shell reads as the same words. */
module ShellRefinement {
  import opened Ascii
  import T = ShellWords
  import P = PosixShell
  import opened Utf8

  function Values(words: seq<T.Word>): seq<string> {
    seq(|words|, i requires 0 <= i < |words| => words[i].value)
  }

  lemma ValuesMore(words: seq<T.Word>, w: T.Word)
    ensures Values(words + [w]) == Values(words) + [w.value]
  {
  }

  /** The reference is where the tokenizer is. */
  predicate Agrees(t: T.State, p: P.State) {
    match t
    case Between(words, _) => p == P.Gap(Values(words))
    case Inside(words, d, dollar) => p == P.Token(Values(words), d.value, dollar)
    case Escaping(words, d) =>
      && p.Escaped?
      && ((p.before == P.Gap(Values(words)) && d.value == "")
          || (p.before.Token? && p.before.words == Values(words) && p.before.value == d.value))
    case Quoted(words, d, mark, dollar) =>
      (mark == '\'' && !dollar && p == P.Single(Values(words), d.value))
      || (mark == '"' && p == P.Double(Values(words), d.value, dollar))
    case Refused(_) => true
  }

  /** A draft has taken at least one byte. */
  predicate Begun(t: T.State) {
    t.Inside? ==> t.draft.raw != ""
  }

  lemma BegunStep(t: T.State, c: char)
    requires Begun(t)
    ensures Begun(T.Step(t, c))
  {
  }

  lemma AgreesStep(t: T.State, p: P.State, c: char)
    requires Begun(t) && Agrees(t, p)
    ensures Agrees(T.Step(t, c), P.Step(p, c))
  {
  }

  lemma {:induction false} AgreesRun(t: T.State, p: P.State, s: string)
    requires Begun(t) && Agrees(t, p)
    ensures Agrees(T.Run(t, s), P.Run(p, s))
    decreases |s|
  {
    hide Agrees, Begun, T.Step, P.Step;
    if s != "" {
      BegunStep(t, s[0]);
      AgreesStep(t, p, s[0]);
      AgreesRun(T.Step(t, s[0]), P.Step(p, s[0]), s[1..]);
    }
  }

  lemma TokenizerRefinesPosix(input: string)
    ensures T.Tokenize(input).Ok? ==> P.Split(input) == Some(Values(T.Tokenize(input).value))
  {
    hide Values, T.Run, P.Run, Runes, NoneForbidden;
    StartAgrees();
    AgreesRun(T.Start, P.Gap([]), input);
    var t := T.Run(T.Start, input);
    if t.Inside? {
      ValuesMore(t.words, t.draft.ToWord());
    }
  }

  lemma StartAgrees()
    ensures Begun(T.Start) && Agrees(T.Start, P.Gap([]))
  {
  }
}
