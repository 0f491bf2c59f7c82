/** The loops of tokenizeShell (internal/policy/shell.go), proved against the steps of ShellWords. */
module ShellTokenizer {
  import opened Ascii
  import opened Utf8
  import opened ShellWords

  /** The answer from a state at an index. */
  function Answer(state: State, input: string, index: nat): Result<seq<Word>>
    requires index <= |input|
  {
    Finish(Run(state, input[index..]))
  }

  lemma AnswerRefused(state: State, input: string, index: nat)
    requires index <= |input| && state.Refused?
    ensures Answer(state, input, index) == Err(state.reason)
  {
    RunRefused(state, input[index..]);
  }

  lemma AnswerStep(state: State, input: string, index: nat)
    requires index < |input|
    ensures Answer(state, input, index) == Answer(Step(state, input[index]), input, index + 1)
  {
  }

  lemma AnswerEnd(state: State, input: string)
    ensures Answer(state, input, |input|) == Finish(state)
  {
  }

  predicate BadInQuotes(mark: char, input: string, index: nat)
    requires index < |input|
  {
    mark == '"' && (input[index] == '`' || input[index] == '\\' || ExpansionAt(input, index))
  }

  /** A byte in quotes that does not end them. */
  lemma QuotedByte(words: seq<Word>, d: Draft, mark: char, input: string, index: nat)
    requires index < |input| && input[index] != mark
    ensures Answer(Quoted(words, d, mark, false), input, index) ==
      if IsControlByte(input[index]) then Err(ControlByte)
      else if BadInQuotes(mark, input, index) then Err(InDoubleQuote)
      else Answer(Quoted(words, d.Literal(input[index]), mark, false), input, index + 1)
  {
    hide StartsExpansion, Answer;
    var c := input[index];
    var next := StepQuoted(words, d, mark, c);
    AnswerStep(Quoted(words, d, mark, false), input, index);
    if next.Refused? {
      AnswerRefused(next, input, index + 1);
    } else if next.dollar {
      DollarByte(words, d.Literal(c), mark, input, index);
    }
  }

  lemma DollarByte(words: seq<Word>, d: Draft, mark: char, input: string, index: nat)
    requires index < |input| && input[index] == '$'
    ensures Answer(Quoted(words, d, mark, true), input, index + 1) ==
      if ExpansionAt(input, index) then Err(InDoubleQuote) else Answer(Quoted(words, d, mark, false), input, index + 1)
    ensures Answer(Inside(words, d, true), input, index + 1) ==
      if ExpansionAt(input, index) then Err(Expansion) else Answer(Inside(words, d, false), input, index + 1)
  {
    hide Run, Finish;
    if ExpansionAt(input, index) {
      AnswerStep(Quoted(words, d, mark, true), input, index + 1);
      AnswerStep(Inside(words, d, true), input, index + 1);
      AnswerRefused(Refused(InDoubleQuote), input, index + 2);
      AnswerRefused(Refused(Expansion), input, index + 2);
    } else {
      DollarEnds(words, d, mark, input, index + 1);
    }
  }

  /** The loop over one quoted segment, from the byte after the opening quote. */
  method ReadQuoted(input: string, at: nat, mark: char, ghost words: seq<Word>, ghost d: Draft)
    returns (index: nat, text: string, error: Option<Reason>)
    requires at <= |input| && IsQuote(mark)
    ensures error.Some? ==> Answer(Quoted(words, d, mark, false), input, at) == Err(error.value)
    ensures error.None? ==>
      && at <= index < |input| && input[index] == mark && text == input[at..index]
      && Answer(Quoted(words, d, mark, false), input, at) ==
         Answer(Quoted(words, Taken(d, text), mark, false), input, index)
  {
    hide Run, Finish, StartsExpansion, Answer, ExpansionAt, IsControlByte;
    index, text, error := at, "", None;
    TakenNone(d);
    while index < |input| && input[index] != mark
      invariant at <= index <= |input| && text == input[at..index]
      invariant Answer(Quoted(words, d, mark, false), input, at) ==
        Answer(Quoted(words, Taken(d, text), mark, false), input, index)
    {
      var current := input[index];
      QuotedByte(words, Taken(d, text), mark, input, index);
      if IsControlByte(current) {
        error := Some(ControlByte);
        return;
      }
      if mark == '"' && (current == '`' || current == '\\' || ExpansionAt(input, index)) {
        error := Some(InDoubleQuote);
        return;
      }
      TakenMore(d, text, current);
      text := text + [current];
      index := index + 1;
    }
    if index >= |input| {
      AnswerEnd(Quoted(words, Taken(d, text), mark, false), input);
      FinishQuoted(words, Taken(d, text), mark);
      error := Some(Unterminated);
    }
  }

  lemma FinishQuoted(words: seq<Word>, d: Draft, mark: char)
    ensures Finish(Quoted(words, d, mark, false)) == Err(Unterminated)
  {
  }

  /** A draft that has taken a quoted text. */
  function Taken(d: Draft, text: string): Draft {
    d.(raw := d.raw + text, value := d.value + text)
  }

  lemma TakenNone(d: Draft)
    ensures Taken(d, "") == d
  {
  }

  lemma TakenMore(d: Draft, text: string, c: char)
    ensures Taken(d, text).Literal(c) == Taken(d, text + [c])
  {
  }

  /** A byte of a word outside quotes, but for a quote, a backslash or a space. */
  lemma InsideByte(words: seq<Word>, d: Draft, input: string, index: nat)
    requires index < |input| && input[index] != ' ' && input[index] != '\\' && !IsQuote(input[index])
    ensures Answer(Inside(words, d, false), input, index) ==
      if IsControlByte(input[index]) then Err(ControlByte)
      else if IsComposition(input[index]) then Err(Composition)
      else if input[index] == '~' && d.raw == "" then Err(Expansion)
      else if input[index] == '$' && ExpansionAt(input, index) then Err(Expansion)
      else Answer(Inside(words, d.Plain(input[index]), false), input, index + 1)
  {
    hide StartsExpansion, Answer;
    var c := input[index];
    var next := StepInside(words, d, c);
    AnswerStep(Inside(words, d, false), input, index);
    if next.Refused? {
      AnswerRefused(next, input, index + 1);
    } else if next.dollar {
      DollarByte(words, d.Plain(c), '"', input, index);
    }
  }

  /** A backslash and the byte after it. */
  lemma EscapedByte(words: seq<Word>, d: Draft, input: string, index: nat)
    requires index < |input| && input[index] == '\\'
    ensures Answer(Inside(words, d, false), input, index) ==
      if index + 1 >= |input| || IsControlByte(input[index + 1]) then Err(BadEscape)
      else Answer(Inside(words, d.Backslash().Literal(input[index + 1]), false), input, index + 2)
  {
    hide Answer;
    AnswerStep(Inside(words, d, false), input, index);
    if index + 1 < |input| {
      AnswerStep(Escaping(words, d.Backslash()), input, index + 1);
      if IsControlByte(input[index + 1]) {
        AnswerRefused(Refused(BadEscape), input, index + 2);
      }
    } else {
      AnswerEnd(Escaping(words, d.Backslash()), input);
    }
  }

  lemma OpeningQuote(words: seq<Word>, d: Draft, input: string, index: nat)
    requires index < |input| && IsQuote(input[index])
    ensures Answer(Inside(words, d, false), input, index) ==
      Answer(Quoted(words, d.OpenQuote(input[index]), input[index], false), input, index + 1)
  {
  }

  lemma ClosingQuote(words: seq<Word>, d: Draft, mark: char, input: string, index: nat)
    requires index < |input| && input[index] == mark
    ensures Answer(Quoted(words, d, mark, false), input, index) ==
      Answer(Inside(words, d.CloseQuote(mark), false), input, index + 1)
  {
  }

  /** A word begins at any byte but a space. */
  lemma WordBegins(words: seq<Word>, input: string, index: nat)
    requires index < |input| && input[index] != ' '
    ensures Answer(Between(words, index), input, index) ==
      Answer(Inside(words, NewDraft.(start := index), false), input, index)
  {
  }

  /** A word ends at a space or at the end of the command. */
  lemma WordEnds(words: seq<Word>, d: Draft, input: string, index: nat)
    requires index <= |input| && (index < |input| ==> input[index] == ' ') && d.start + |d.raw| == index
    ensures Answer(Inside(words, d, false), input, index) == Answer(Between(words + [d.ToWord()], index), input, index)
  {
  }

  /** The loop over one word. */
  method ReadWord(input: string, at: nat, ghost words: seq<Word>)
    returns (word: Word, index: nat, error: Option<Reason>)
    requires at < |input| && input[at] != ' '
    ensures error.Some? ==> Answer(Between(words, at), input, at) == Err(error.value)
    ensures error.None? ==>
      && at < index <= |input|
      && Answer(Between(words, at), input, at) == Answer(Between(words + [word], index), input, index)
  {
    hide Run, Finish, StartsExpansion, Answer, IsControlByte, IsComposition, ExpansionAt, Step, StepInside, StepQuoted;
    hide Draft.ToWord, Draft.Plain, Draft.Backslash, Draft.Literal, Draft.OpenQuote, Draft.CloseQuote, Taken;
    word := Word("", at, at, NoQuote, false);
    index, error := at, None;
    var value, quote, mixed, quotedSegments, unquotedSegment := "", NoQuote, false, 0, false;
    WordBegins(words, input, at);
    ghost var d := NewDraft.(start := at);
    while index < |input| && input[index] != ' '
      invariant at <= index <= |input| && error.None?
      invariant d == Draft(at, input[at..index], value, quote, mixed, quotedSegments, unquotedSegment)
      invariant Answer(Between(words, at), input, at) == Answer(Inside(words, d, false), input, index)
      invariant index > at || (index < |input| && input[index] != ' ')
      decreases |input| - index
    {
      var ch := input[index];
      if IsControlByte(ch) {
        ControlStops(words, d, input, index);
        error := Some(ControlByte);
        return;
      }
      if ch == '\'' || ch == '"' {
        OpeningQuote(words, d, input, index);
        ghost var began := d.OpenQuote(ch);
        quotedSegments := quotedSegments + 1;
        if quote == NoQuote {
          quote := ch;
        } else if quote != ch {
          mixed := true;
        }
        var text;
        ghost var from := index + 1;
        index, text, error := ReadQuoted(input, index + 1, ch, words, began);
        if error.Some? {
          return;
        }
        ClosingQuote(words, Taken(began, text), ch, input, index);
        value := value + text;
        index := index + 1;
        QuoteTaken(d, input, at, from, index - 1);
        d := Taken(began, text).CloseQuote(ch);
      } else if ch == '\\' {
        EscapedByte(words, d, input, index);
        unquotedSegment, mixed := true, true;
        index := index + 1;
        if index >= |input| || IsControlByte(input[index]) {
          error := Some(BadEscape);
          return;
        }
        EscapeTaken(d, input, at, index - 1);
        d := d.Backslash().Literal(input[index]);
        value := value + [input[index]];
        index := index + 1;
      } else {
        InsideByte(words, d, input, index);
        assert |d.raw| == index - at;
        if IsComposition(ch) {
          error := Some(Composition);
          return;
        }
        if ch == '~' && index == at {
          error := Some(Expansion);
          return;
        }
        if ch == '$' && ExpansionAt(input, index) {
          error := Some(Expansion);
          return;
        }
        PlainTaken(d, input, at, index);
        d := d.Plain(ch);
        unquotedSegment := true;
        value := value + [ch];
        index := index + 1;
      }
    }
    WordEnds(words, d, input, index);
    word := word.(end := index, value := value, quote := quote, mixed := mixed);
    word := EndWord(input, word, quotedSegments, unquotedSegment);
  }

  /** The flags of a word whose end has been reached. */
  method EndWord(input: string, read: Word, quotedSegments: nat, unquotedSegment: bool) returns (word: Word)
    requires read.start <= read.end <= |input|
    ensures word == Draft(read.start, input[read.start..read.end], read.value, read.quote, read.mixed,
                          quotedSegments, unquotedSegment).ToWord()
  {
    word := read;
    var raw := input[word.start..word.end];
    if word.quote != NoQuote && !(|raw| >= 2 && raw[0] == word.quote && raw[|raw| - 1] == word.quote) {
      word := word.(mixed := true);
    }
    if quotedSegments > 1 || (quotedSegments > 0 && unquotedSegment) {
      word := word.(mixed := true);
    }
  }

  lemma ControlStops(words: seq<Word>, d: Draft, input: string, index: nat)
    requires index < |input| && IsControlByte(input[index])
    ensures Answer(Inside(words, d, false), input, index) == Err(ControlByte)
  {
    hide Answer;
    AnswerStep(Inside(words, d, false), input, index);
    AnswerRefused(Refused(ControlByte), input, index + 1);
  }

  lemma PlainTaken(d: Draft, input: string, at: nat, index: nat)
    requires at <= index < |input| && d.raw == input[at..index]
    ensures d.Plain(input[index]) ==
      Draft(d.start, input[at..index + 1], d.value + [input[index]], d.quote, d.mixed, d.segments, true)
  {
  }

  lemma EscapeTaken(d: Draft, input: string, at: nat, index: nat)
    requires at <= index < index + 1 < |input| && d.raw == input[at..index] && input[index] == '\\'
    ensures d.Backslash().Literal(input[index + 1]) ==
      Draft(d.start, input[at..index + 2], d.value + [input[index + 1]], d.quote, true, d.segments, true)
  {
  }

  lemma QuoteTaken(d: Draft, input: string, at: nat, from: nat, index: nat)
    requires at < from <= index < |input| && d.raw == input[at..from - 1] && input[from - 1] == input[index]
    ensures var c := input[index];
      Taken(d.OpenQuote(c), input[from..index]).CloseQuote(c) ==
      Draft(d.start, input[at..index + 1], d.value + input[from..index], if d.quote == NoQuote then c else d.quote,
            d.mixed || (d.quote != NoQuote && d.quote != c), d.segments + 1, d.bare)
  {
  }

  method TokenizeShell(input: string) returns (r: Result<seq<Word>>)
    ensures r == Tokenize(input)
  {
    hide Run, Finish, Answer;
    var decoded := Runes(input);
    if decoded.None? {
      return Err(InvalidText);
    }
    var runes := decoded.value;
    for k := 0 to |runes|
      invariant forall i | 0 <= i < k :: !Forbidden(runes[i])
    {
      if IsControl(runes[k]) || (IsSpace(runes[k]) && runes[k] != 0x20) {
        assert Forbidden(runes[k]);
        return Err(ControlOrSpace);
      }
    }
    var words, index := [], 0;
    AnswerAll(input);
    while index < |input|
      invariant index <= |input|
      invariant Tokenize(input) == Answer(Between(words, index), input, index)
    {
      if input[index] == ' ' {
        AnswerStep(Between(words, index), input, index);
        index := index + 1;
        continue;
      }
      var word, next, error := ReadWord(input, index, words);
      if error.Some? {
        return Err(error.value);
      }
      words, index := words + [word], next;
    }
    AnswerEnd(Between(words, index), input);
    return NonEmpty(words, index);
  }

  lemma AnswerAll(input: string)
    requires IsClean(input)
    ensures Tokenize(input) == Answer(Start, input, 0)
  {
  }

  /** The last test: a command has at least one word. */
  function NonEmpty(words: seq<Word>, at: nat): (r: Result<seq<Word>>)
    ensures r == Finish(Between(words, at))
  {
    if |words| == 0 then Err(EmptyCommand) else Ok(words)
  }
}
