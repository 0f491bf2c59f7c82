/** Reading a command in two parts that a space separates. */
module ShellJoining {
  import opened Utf8
  import opened ShellWords
  import ShellSpans

  function Shift(w: Word, k: nat): Word {
    w.(start := w.start + k, end := w.end + k)
  }

  function ShiftAll(words: seq<Word>, k: nat): seq<Word> {
    seq(|words|, i requires 0 <= i < |words| => Shift(words[i], k))
  }

  function Moved(d: Draft, k: nat): Draft {
    d.(start := d.start + k)
  }

  /** The state of a reader that had read some words before, k bytes earlier. */
  function Lift(state: State, before: seq<Word>, k: nat): State {
    match state
    case Between(words, at) => Between(before + ShiftAll(words, k), at + k)
    case Inside(words, d, dollar) => Inside(before + ShiftAll(words, k), Moved(d, k), dollar)
    case Quoted(words, d, mark, dollar) => Quoted(before + ShiftAll(words, k), Moved(d, k), mark, dollar)
    case Escaping(words, d) => Escaping(before + ShiftAll(words, k), Moved(d, k))
    case Refused(_) => state
  }

  lemma LiftWord(words: seq<Word>, d: Draft, before: seq<Word>, k: nat)
    ensures before + ShiftAll(words + [d.ToWord()], k) == before + ShiftAll(words, k) + [Moved(d, k).ToWord()]
  {
  }

  lemma LiftInside(words: seq<Word>, d: Draft, c: char, before: seq<Word>, k: nat)
    ensures StepInside(before + ShiftAll(words, k), Moved(d, k), c) == Lift(StepInside(words, d, c), before, k)
  {
  }

  lemma LiftQuoted(words: seq<Word>, d: Draft, mark: char, c: char, before: seq<Word>, k: nat)
    ensures StepQuoted(before + ShiftAll(words, k), Moved(d, k), mark, c) ==
      Lift(StepQuoted(words, d, mark, c), before, k)
  {
  }

  lemma LiftStep(state: State, c: char, before: seq<Word>, k: nat)
    ensures Step(Lift(state, before, k), c) == Lift(Step(state, c), before, k)
  {
    hide ShiftAll, StepInside, StepQuoted, StartsExpansion;
    match state
    case Between(words, at) => LiftInside(words, NewDraft.(start := at), c, before, k);
    case Inside(words, d, _) =>
      LiftWord(words, d, before, k);
      LiftInside(words, d, c, before, k);
    case Quoted(words, d, mark, _) => LiftQuoted(words, d, mark, c, before, k);
    case Escaping(_, _) =>
    case Refused(_) =>
  }

  lemma {:induction false} LiftRun(state: State, s: string, before: seq<Word>, k: nat)
    ensures Run(Lift(state, before, k), s) == Lift(Run(state, s), before, k)
    decreases |s|
  {
    hide Lift, Step;
    if s != "" {
      LiftStep(state, s[0], before, k);
      LiftRun(Step(state, s[0]), s[1..], before, k);
    }
  }

  predicate AllSpaces(s: string) {
    forall i | 0 <= i < |s| :: s[i] == ' '
  }

  /** A state in which some byte other than a space has been read. */
  predicate HasRead(state: State) {
    state.Between? ==> state.words != []
  }

  lemma {:induction false} HasReadRun(state: State, s: string)
    requires HasRead(state)
    ensures HasRead(Run(state, s))
    decreases |s|
  {
    if s != "" {
      HasReadRun(Step(state, s[0]), s[1..]);
    }
  }

  lemma {:induction false} SpacesOnly(s: string, at: nat)
    ensures HasRead(Run(Between([], at), s)) <==> !AllSpaces(s)
    decreases |s|
  {
    hide HasRead, StepInside;
    if s == "" {
      NothingRead(at);
    } else if s[0] == ' ' {
      SpacesOnly(s[1..], at + 1);
      assert AllSpaces(s[1..]) ==> forall i | 1 <= i < |s| :: s[i] == s[1..][i - 1];
      assert AllSpaces(s) ==> AllSpaces(s[1..]);
    } else {
      FirstRead(at, s[0]);
      HasReadRun(Step(Between([], at), s[0]), s[1..]);
    }
  }

  lemma NothingRead(at: nat)
    ensures !HasRead(Between([], at))
  {
  }

  lemma FirstRead(at: nat, c: char)
    requires c != ' '
    ensures HasRead(Step(Between([], at), c))
  {
  }

  lemma AfterSpace(a: string)
    requires Tokenize(a).Ok?
    ensures Run(Start, a + [' ']) == Between(Tokenize(a).value, |a| + 1)
  {
    hide Run, ShellSpans.Placed, ShellSpans.Loose, Runes, NoneForbidden;
    RunJoins(Start, a, [' ']);
    RunOne(Run(Start, a), ' ');
    ShellSpans.StartKnows();
    ShellSpans.KnowsRun(Start, "", a);
    assert "" + a == a;
  }

  lemma FinishLift(state: State, before: seq<Word>, k: nat)
    requires before != []
    ensures var r, q := Finish(Lift(state, before, k)), Finish(state);
      if q.Ok? then r == Ok(before + ShiftAll(q.value, k))
      else if !HasRead(state) then r == Ok(before)
      else r == q
  {
    if state.Inside? {
      LiftWord(state.words, state.draft, before, k);
    } else if !HasRead(state) {
      assert before + ShiftAll([], k) == before;
    }
  }

  lemma CleanTokenize(s: string)
    ensures IsClean(s) ==> Tokenize(s) == Finish(Run(Start, s))
    ensures Tokenize(s).Ok? ==> IsClean(s) && Tokenize(s).value != []
  {
  }

  /**
    After text that is accepted by itself and a space, the whole is accepted exactly when the rest
    is accepted by itself, or is nothing but spaces; the words are those of both parts.
   */
  lemma JoinAtSpace(a: string, b: string)
    requires Tokenize(a).Ok?
    ensures var r, rest := Tokenize(a + " " + b), Tokenize(b);
      && (r.Ok? <==> rest.Ok? || AllSpaces(b))
      && (rest.Ok? ==> r == Ok(Tokenize(a).value + ShiftAll(rest.value, |a| + 1)))
      && (AllSpaces(b) ==> r == Ok(Tokenize(a).value))
  {
    hide Run, Tokenize, Runes, NoneForbidden, IsClean, ShiftAll, AllSpaces;
    var words := Tokenize(a).value;
    CleanTokenize(a);
    CleanTokenize(b);
    CleanTokenize(a + " " + b);
    CleanSplits(a, ' ', b);
    AfterSpace(a);
    assert a + " " + b == a + [' '] + b;
    RunJoins(Start, a + [' '], b);
    LiftStart(words, |a| + 1);
    LiftRun(Start, b, words, |a| + 1);
    FinishLift(Run(Start, b), words, |a| + 1);
    SpacesOnly(b, 0);
    SpacesClean(b);
    SpacesRefused(Run(Start, b));
  }

  lemma LiftStart(before: seq<Word>, k: nat)
    ensures Lift(Start, before, k) == Between(before, k)
  {
  }

  lemma SpacesClean(b: string)
    ensures AllSpaces(b) ==> IsClean(b)
  {
    if AllSpaces(b) {
      PrintableIsClean(b);
    }
  }

  lemma SpacesRefused(state: State)
    ensures !HasRead(state) ==> Finish(state).Err?
  {
  }
}
