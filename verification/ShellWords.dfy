/**
  tokenizeShell of internal/policy/shell.go: the words of a command that needs nothing but quote
  removal. The specification reads the command byte by byte, one step for each byte.
 */
module ShellWords {
  import opened Ascii
  import opened Utf8

  datatype Reason =
    | InvalidText | ControlOrSpace | ControlByte | InDoubleQuote | Unterminated | Composition | Expansion | BadEscape
    | EmptyCommand

  datatype Result<+T> = Ok(value: T) | Err(reason: Reason)

  const NoQuote := '\0'

  /** A word and where it stands; quote is the first quote character in it, or NoQuote. */
  datatype Word = Word(value: string, start: nat, end: nat, quote: char, mixed: bool)

  // ----- Single bytes --------------------------------------------------------------------------------

  predicate IsControlByte(c: char) {
    c as int < 0x20 || c as int == 0x7F
  }

  predicate IsQuote(c: char) {
    c == '\'' || c == '"'
  }

  predicate IsComposition(c: char) {
    c == ';' || c == '|' || c == '&' || c == '>' || c == '<' || c == '`' || c == '*' || c == '?' || c == '[' || c == '('
    || c == ')' || c == '#'
  }

  /** The bytes that make a preceding $ the start of an expansion. */
  predicate StartsExpansion(c: char) {
    c == '(' || c == '{' || c == '?' || c == '*' || c == '@' || c == '$' || c == '!' || c == '#' || c == '-' || c == '_'
    || IsLetter(c) || IsDigit(c)
  }

  /** shellExpansionAt */
  predicate ExpansionAt(input: string, index: nat) {
    index < |input| && input[index] == '$' && index + 1 < |input| && StartsExpansion(input[index + 1])
  }

  // ----- The steps -----------------------------------------------------------------------------------

  /** A word being read; raw is the text it has taken so far. */
  datatype Draft = Draft(start: nat, raw: string, value: string, quote: char, mixed: bool, segments: nat, bare: bool) {
    function Plain(c: char): Draft {
      this.(raw := raw + [c], value := value + [c], bare := true)
    }

    function Backslash(): Draft {
      this.(raw := raw + ['\\'], mixed := true, bare := true)
    }

    function Literal(c: char): Draft {
      this.(raw := raw + [c], value := value + [c])
    }

    function OpenQuote(c: char): Draft {
      this.(raw := raw + [c], segments := segments + 1,
            quote := if quote == NoQuote then c else quote,
            mixed := mixed || (quote != NoQuote && quote != c))
    }

    function CloseQuote(c: char): Draft {
      this.(raw := raw + [c])
    }

    predicate Surrounded() {
      |raw| >= 2 && raw[0] == quote && raw[|raw| - 1] == quote
    }

    function ToWord(): Word {
      Word(value, start, start + |raw|, quote,
           mixed || (quote != NoQuote && !Surrounded()) || segments > 1 || (segments > 0 && bare))
    }
  }

  const NewDraft: Draft := Draft(0, "", "", NoQuote, false, 0, false)

  /** Where the reader is; dollar tells that the last byte was a $ that may start an expansion. */
  datatype State =
    | Between(words: seq<Word>, at: nat)
    | Inside(words: seq<Word>, draft: Draft, dollar: bool)
    | Quoted(words: seq<Word>, draft: Draft, mark: char, dollar: bool)
    | Escaping(words: seq<Word>, draft: Draft)
    | Refused(reason: Reason)

  function StepInside(words: seq<Word>, d: Draft, c: char): State {
    if IsControlByte(c) then Refused(ControlByte)
    else if IsQuote(c) then Quoted(words, d.OpenQuote(c), c, false)
    else if IsComposition(c) then Refused(Composition)
    else if c == '~' && d.raw == "" then Refused(Expansion)
    else if c == '\\' then Escaping(words, d.Backslash())
    else Inside(words, d.Plain(c), c == '$')
  }

  function StepQuoted(words: seq<Word>, d: Draft, mark: char, c: char): State {
    if c == mark then Inside(words, d.CloseQuote(c), false)
    else if IsControlByte(c) then Refused(ControlByte)
    else if mark == '"' && (c == '`' || c == '\\') then Refused(InDoubleQuote)
    else Quoted(words, d.Literal(c), mark, mark == '"' && c == '$')
  }

  function Step(state: State, c: char): State {
    match state
    case Between(words, at) => if c == ' ' then Between(words, at + 1) else StepInside(words, NewDraft.(start := at), c)
    case Inside(words, d, dollar) =>
      if c == ' ' then Between(words + [d.ToWord()], d.start + |d.raw| + 1)
      else if dollar && StartsExpansion(c) then Refused(Expansion)
      else StepInside(words, d, c)
    case Quoted(words, d, mark, dollar) =>
      if dollar && StartsExpansion(c) then Refused(InDoubleQuote) else StepQuoted(words, d, mark, c)
    case Escaping(words, d) => if IsControlByte(c) then Refused(BadEscape) else Inside(words, d.Literal(c), false)
    case Refused(_) => state
  }

  function Run(state: State, s: string): State
    decreases |s|
  {
    if s == "" then state else Run(Step(state, s[0]), s[1..])
  }

  function Finish(state: State): Result<seq<Word>> {
    match state
    case Between(words, _) => if words == [] then Err(EmptyCommand) else Ok(words)
    case Inside(words, d, _) => Ok(words + [d.ToWord()])
    case Quoted(_, _, _, _) => Err(Unterminated)
    case Escaping(_, _) => Err(BadEscape)
    case Refused(reason) => Err(reason)
  }

  const Start: State := Between([], 0)

  function Tokenize(input: string): Result<seq<Word>> {
    var runes := Runes(input);
    if runes.None? then Err(InvalidText)
    else if !NoneForbidden(runes.value) then Err(ControlOrSpace)
    else Finish(Run(Start, input))
  }

  // ----- Runs ----------------------------------------------------------------------------------------

  lemma {:induction false} RunJoins(state: State, a: string, b: string)
    ensures Run(state, a + b) == Run(Run(state, a), b)
    decreases |a|
  {
    hide Step;
    if a == "" {
      assert a + b == b;
    } else {
      assert (a + b)[1..] == a[1..] + b;
      RunJoins(Step(state, a[0]), a[1..], b);
    }
  }

  lemma {:induction false} RunRefused(state: State, s: string)
    requires state.Refused?
    ensures Run(state, s) == state
    decreases |s|
  {
    if s != "" {
      RunRefused(state, s[1..]);
    }
  }

  lemma RunOne(state: State, c: char)
    ensures Run(state, [c]) == Step(state, c)
  {
  }

  /** A $ that no expansion follows is an ordinary byte. */
  lemma DollarEnds(words: seq<Word>, d: Draft, mark: char, input: string, index: nat)
    requires index <= |input| && (index < |input| ==> !StartsExpansion(input[index]))
    ensures Finish(Run(Inside(words, d, true), input[index..])) == Finish(Run(Inside(words, d, false), input[index..]))
    ensures Finish(Run(Quoted(words, d, mark, true), input[index..])) ==
      Finish(Run(Quoted(words, d, mark, false), input[index..]))
  {
  }
}
