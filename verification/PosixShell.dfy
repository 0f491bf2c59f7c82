/**
  A reference for how a POSIX shell splits a command into words and removes quotes (IEEE Std
  1003.1-2017, Shell and Utilities, sections 2.2.1 to 2.2.3, 2.3 and 2.6.7). Text whose meaning is
  more than quoting (operators, expansions, patterns, a second line) is Beyond it. A $ that starts
  no expansion is a literal.
 */
module PosixShell {
  import opened Ascii

  datatype State =
    | Gap(words: seq<string>)
    | Token(words: seq<string>, value: string, dollar: bool)
    | Escaped(before: State)                            // after an unquoted backslash
    | Single(words: seq<string>, value: string)         // in '...'
    | Double(words: seq<string>, value: string, dollar: bool)
    | DoubleEscaped(words: seq<string>, value: string)  // after a backslash in "..."
    | Comment(words: seq<string>)
    | Beyond

  predicate IsOperator(c: char) {
    c == '|' || c == '&' || c == ';' || c == '<' || c == '>' || c == '(' || c == ')' || c == '\n'
  }

  predicate IsPattern(c: char) {
    c == '*' || c == '?' || c == '['
  }

  /** Bytes that start an expansion after a $: a name, a parameter, or a bracket. */
  predicate Expands(c: char) {
    IsLetter(c) || IsDigit(c) || c == '_' || c == '(' || c == '{'
    || c == '@' || c == '*' || c == '#' || c == '?' || c == '-' || c == '$' || c == '!'
  }

  /** An unquoted byte of a word, the first one of it if value is empty. */
  function Unquoted(words: seq<string>, value: string, c: char): State {
    if c == '\'' then Single(words, value)
    else if c == '"' then Double(words, value, false)
    else if IsOperator(c) || IsPattern(c) || c == '`' then Beyond
    else Token(words, value + [c], c == '$')
  }

  function Step(state: State, c: char): State {
    match state
    case Gap(words) =>
      if c == ' ' || c == '\t' then state
      else if c == '\\' then Escaped(state)
      else if c == '#' then Comment(words)
      else if c == '~' then Beyond
      else Unquoted(words, "", c)
    case Token(words, value, dollar) =>
      if c == ' ' || c == '\t' then Gap(words + [value])
      else if c == '\\' then Escaped(state)
      else if dollar && Expands(c) then Beyond
      else Unquoted(words, value, c)
    case Escaped(before) =>
      if c == '\n' then before
      else if before.Gap? then Token(before.words, [c], false)
      else if before.Token? then Token(before.words, before.value + [c], false)
      else Beyond
    case Single(words, value) => if c == '\'' then Token(words, value, false) else Single(words, value + [c])
    case Double(words, value, dollar) =>
      if c == '"' then Token(words, value, false)
      else if c == '\\' then DoubleEscaped(words, value)
      else if c == '`' || (dollar && Expands(c)) then Beyond
      else Double(words, value + [c], c == '$')
    case DoubleEscaped(words, value) =>
      if c == '\n' then Double(words, value, false)
      else if c == '$' || c == '`' || c == '"' || c == '\\' then Double(words, value + [c], false)
      else Double(words, value + ['\\', c], false)
    case Comment(words) => if c == '\n' then Beyond else state
    case Beyond => Beyond
  }

  function Run(state: State, s: string): State
    decreases |s|
  {
    if s == "" then state else Run(Step(state, s[0]), s[1..])
  }

  function Finish(state: State): Option<seq<string>> {
    match state
    case Gap(words) => Some(words)
    case Comment(words) => Some(words)
    case Token(words, value, _) => Some(words + [value])
    case _ => None
  }

  /** The words of a command, if quoting is all there is to it. */
  function Split(s: string): Option<seq<string>> {
    Finish(Run(Gap([]), s))
  }

  lemma {:induction false} RunJoins(state: State, a: string, b: string)
    ensures Run(state, a + b) == Run(Run(state, a), b)
    decreases |a|
  {
    hide Step;
    if a == "" {
      assert a + b == b;
    } else {
      assert (a + b)[1..] == a[1..] + b;
      RunJoins(Step(state, a[0]), a[1..], b);
    }
  }
}
