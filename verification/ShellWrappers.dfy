/** What the wrapper views of a command have to do with its words. */
module ShellWrappers {
  import opened Ascii
  import opened Utf8
  import opened ShellWords
  import opened ShellAcceptance
  import opened ShellJoining
  import opened ShellViews
  import ShellRefinement
  import Posix = PosixShell

  // ----- The wrapper forms, declaratively ---------------------------------------------------------------

  /** The text after the prefix: a name, a space, and the wrapped command. */
  predicate IsWrapping(s: string, prefix: string, name: string, inner: string) {
    && s == prefix + name + " " + inner && inner != "" && '\n' !in inner
    && name != "" && IsLetterOrDigit(name[0])
    && (forall i | 0 <= i < |name| :: IsLetterOrDigit(name[i]) || name[i] in {'_', '.', '-'})
  }

  lemma WrappingName(s: string, prefix: string, name: string, inner: string)
    ensures IsWrapping(s, prefix, name, inner) <==>
      s == prefix + name + " " + inner && IsName(name) && inner != "" && '\n' !in inner
  {
  }

  lemma {:induction false} NameEnds(name: string, more: string)
    requires forall i | 0 <= i < |name| :: IsNameByte(name[i])
    requires more != "" ==> !IsNameByte(more[0])
    ensures NameLength(name + more) == |name|
    decreases |name|
  {
    if name == "" {
      assert name + more == more;
    } else {
      assert (name + more)[1..] == name[1..] + more;
      NameEnds(name[1..], more);
    }
  }

  /** The regular expression means what it says. */
  lemma WrappedExactly(s: string, prefix: string, inner: string)
    ensures Wrapped(s, prefix) == Some(inner) <==> exists name :: IsWrapping(s, prefix, name, inner)
  {
    hide IsName, IsNameByte, Wrapped, IsWrapping;
    if Wrapped(s, prefix) == Some(inner) {
      var name := WrappedName(s, prefix, inner);
    }
    if exists name :: IsWrapping(s, prefix, name, inner) {
      var name :| IsWrapping(s, prefix, name, inner);
      WrappingIsFound(s, prefix, name, inner);
    }
  }

  lemma WrappedName(s: string, prefix: string, inner: string) returns (name: string)
    requires Wrapped(s, prefix) == Some(inner)
    ensures IsWrapping(s, prefix, name, inner)
  {
    hide IsName, IsNameByte, IsWrapping;
    var rest := s[|prefix|..];
    name := rest[..NameLength(rest)];
    WrappingName(s, prefix, name, inner);
    assert s == prefix + rest && rest == name + " " + inner;
    assert prefix + (name + " " + inner) == prefix + name + " " + inner;
  }

  lemma WrappingIsFound(s: string, prefix: string, name: string, inner: string)
    requires IsWrapping(s, prefix, name, inner)
    ensures Wrapped(s, prefix) == Some(inner)
  {
    hide IsName, IsNameByte, IsWrapping;
    WrappingName(s, prefix, name, inner);
    var rest := s[|prefix|..];
    assert s == prefix + (name + (" " + inner));
    assert rest == name + (" " + inner);
    NameBytes(name);
    NameEnds(name, " " + inner);
    assert rest[..|name|] == name && rest[|name| + 1..] == inner && rest[|name|] == ' ';
  }

  lemma NameBytes(name: string)
    requires IsName(name)
    ensures name != "" && (forall i | 0 <= i < |name| :: IsNameByte(name[i])) && !IsNameByte(' ')
  {
  }

  // ----- Words of names ------------------------------------------------------------------------------

  lemma NameIsBare(x: string)
    requires forall i | 0 <= i < |x| :: IsNameByte(x[i])
    ensures forall i | 0 <= i < |x| :: IsBareByte(x[i])
  {
  }

  /** A name is one word, and so is an option like -m. */
  lemma NameTokenizes(x: string)
    requires x != "" && forall i | 0 <= i < |x| :: IsNameByte(x[i])
    ensures Tokenize(x) == Ok([Word(x, 0, |x|, NoQuote, false)])
  {
    hide *;
    NameIsBare(x);
    BareWord(x);
  }

  lemma RunagentWords(name: string)
    requires IsName(name)
    ensures var r := Tokenize("runagent -m " + name);
      r.Ok? && ShellRefinement.Values(r.value) == ["runagent", "-m", name]
  {
    hide Tokenize, IsName;
    NameBytes(name);
    NameTokenizes("runagent");
    NameTokenizes("-m");
    NameTokenizes(name);
    JoinAtSpace("runagent", "-m");
    assert "runagent" + " " + "-m" == "runagent -m";
    JoinAtSpace("runagent -m", name);
    assert "runagent -m" + " " + name == "runagent -m " + name;
  }

  lemma PodmanWords(name: string)
    requires IsName(name)
    ensures var r := Tokenize("podman exec " + name);
      r.Ok? && ShellRefinement.Values(r.value) == ["podman", "exec", name]
  {
    hide Tokenize, IsName;
    NameBytes(name);
    NameTokenizes("podman");
    NameTokenizes("exec");
    NameTokenizes(name);
    JoinAtSpace("podman", "exec");
    assert "podman" + " " + "exec" == "podman exec";
    JoinAtSpace("podman exec", name);
    assert "podman exec" + " " + name == "podman exec " + name;
  }

  /**
    A wrapper and what it runs are read alike: the whole is accepted exactly when the inner text is
    (or is nothing but spaces), and has the prefix words followed by the inner words, moved.
   */
  lemma WrapperReadsInner(s: string, prefix: string, name: string, inner: string)
    requires prefix == "runagent -m " || prefix == "podman exec "
    requires IsWrapping(s, prefix, name, inner)
    ensures var whole, part := Tokenize(s), Tokenize(inner);
      && (whole.Ok? <==> part.Ok? || AllSpaces(inner))
      && (part.Ok? ==>
            && |whole.value| == 3 + |part.value|
            && ShellRefinement.Values(whole.value[..3]) ==
               (if prefix == "runagent -m " then ["runagent", "-m", name] else ["podman", "exec", name])
            && whole.value[3..] == ShiftAll(part.value, |s| - |inner|))
  {
    hide Tokenize, IsName, AllSpaces, IsWrapping;
    WrappingName(s, prefix, name, inner);
    var before := prefix + name;
    assert s == before + " " + inner;
    if prefix == "runagent -m " {
      RunagentWords(name);
    } else {
      PodmanWords(name);
    }
    JoinAtSpace(before, inner);
    if Tokenize(inner).Ok? {
      assert Tokenize(s).value[..3] == Tokenize(before).value;
    }
  }

  lemma WrappedTokenizes(s: string, prefix: string)
    requires prefix == RunagentPrefix || prefix == PodmanPrefix
    requires Wrapped(s, prefix).Some? && Tokenize(s).Ok?
    ensures var inner := Wrapped(s, prefix).value; Tokenize(inner).Ok? || AllSpaces(inner)
  {
    hide Tokenize, Wrapped, IsWrapping, AllSpaces, ShiftAll, ShellRefinement.Values;
    var inner := Wrapped(s, prefix).value;
    WrappedExactly(s, prefix, inner);
    var name :| IsWrapping(s, prefix, name, inner);
    WrapperReadsInner(s, prefix, name, inner);
  }

  // ----- The TLS redirection ---------------------------------------------------------------------------

  lemma BeyondStays(s: string)
    ensures Posix.Run(Posix.Beyond, s) == Posix.Beyond
    decreases |s|
  {
  }

  lemma SpaceThenRedirect(state: Posix.State, rest: string)
    requires state.Gap? || state.Token?
    ensures Posix.Run(state, " <" + rest) == Posix.Beyond
  {
    var s := " <" + rest;
    var next := Posix.Step(state, ' ');
    assert s[1..] == "<" + rest && s[1..][1..] == rest && Posix.Step(next, '<') == Posix.Beyond;
    BeyondStays(rest);
    assert Posix.Run(state, s) == Posix.Run(next, s[1..]);
  }

  /** A command let through with its redirection is more than quoting. */
  lemma RedirectIsBeyond(text: string, probe: Probe)
    requires TlsRedirect(text, probe).Some?
    ensures Posix.Split(text).None?
  {
    hide Posix.Run, Run, Runes, NoneForbidden, Posix.Step, Step, ShellRefinement.Values;
    var n := |text| - |RedirectSuffix|;
    var prefix := text[..n];
    ShellRefinement.StartAgrees();
    ShellRefinement.AgreesRun(Start, Posix.Gap([]), prefix);
    var state := Posix.Run(Posix.Gap([]), prefix);
    var suffix := " <" + RedirectSuffix[2..];
    assert text == prefix + suffix;
    Posix.RunJoins(Posix.Gap([]), prefix, suffix);
    SpaceThenRedirect(state, RedirectSuffix[2..]);
  }

  /** The words of a readable view are those a POSIX shell reads, unless it is a let-through redirection. */
  lemma ReadableWords(text: string, probe: Probe)
    ensures Posix.Split(text).Some? && Words(text, probe).Some? ==>
      Posix.Split(text).value == ShellRefinement.Values(Words(text, probe).value)
    ensures Words(text, probe).Some? ==> Posix.Split(text).Some? || TlsRedirect(text, probe).Some?
  {
    hide Tokenize, TlsRedirect, Posix.Split;
    ShellRefinement.TokenizerRefinesPosix(text);
    if TlsRedirect(text, probe).Some? {
      RedirectIsBeyond(text, probe);
    }
  }

  /** A shell reads these words here, or would without the redirection of a certificate probe. */
  ghost predicate ShellReads(text: string, words: seq<string>) {
    || Posix.Split(text) == Some(words)
    || exists before :: text == before + " < /dev/null 2>&1" && Posix.Split(before) == Some(words)
  }

  lemma {:induction false} CommentStays(words: seq<string>, s: string)
    requires '\n' !in s
    ensures Posix.Run(Posix.Comment(words), s) == Posix.Comment(words)
    decreases |s|
  {
    if s != "" {
      assert s[0] in s && forall c | c in s[1..] :: c in s;
      CommentStays(words, s[1..]);
    }
  }

  /** The redirection takes a command out of plain quoting, or stands in its comment. */
  lemma RedirectAfter(prefix: string)
    requires Posix.Split(prefix).Some?
    ensures var split := Posix.Split(prefix + RedirectSuffix); split.None? || split == Posix.Split(prefix)
  {
    hide Posix.Run, Posix.Step;
    var state := Posix.Run(Posix.Gap([]), prefix);
    var suffix := " <" + RedirectSuffix[2..];
    assert suffix == RedirectSuffix;
    Posix.RunJoins(Posix.Gap([]), prefix, suffix);
    if state.Comment? {
      CommentStays(state.words, suffix);
    } else {
      SpaceThenRedirect(state, RedirectSuffix[2..]);
    }
  }

  lemma WrapperWithExtra(words: seq<Word>, more: seq<Word>)
    requires more == words + [Extra("<"), Extra("/dev/null"), Extra("2>&1")]
    ensures IsWrapper(ShellRefinement.Values(more)) <==> IsWrapper(ShellRefinement.Values(words))
  {
    assert forall i | 0 <= i < |words| :: more[i] == words[i];
    assert more[|words|] == Extra("<") && more[|words| + 1] == Extra("/dev/null");
  }

  lemma WrapperIs(words: seq<string>)
    ensures IsWrapper(words) <==> ["runagent"] <= words || ["podman", "exec"] <= words
  {
  }

  /** What a shell reads in a view begins as the words of the view do. */
  lemma ReadsAsWords(text: string, probe: Probe, words: seq<string>)
    requires Words(text, probe).Some? && ShellReads(text, words)
    ensures IsWrapper(words) <==> IsWrapper(ShellRefinement.Values(Words(text, probe).value))
  {
    hide Posix.Split, Tokenize, IsWrapper, ShellRefinement.Values;
    ShellRefinement.TokenizerRefinesPosix(text);
    if exists before :: text == before + " < /dev/null 2>&1" && Posix.Split(before) == Some(words) {
      var before :| text == before + " < /dev/null 2>&1" && Posix.Split(before) == Some(words);
      RedirectAfter(before);
    }
    if Tokenize(text).Err? {
      RedirectIsBeyond(text, probe);
      var n := |text| - |RedirectSuffix|;
      ShellRefinement.TokenizerRefinesPosix(text[..n]);
      WrapperWithExtra(Tokenize(text[..n]).value, Words(text, probe).value);
      assert forall before | text == before + " < /dev/null 2>&1" :: before == text[..n];
    }
  }

  lemma ReadsSomething(text: string, probe: Probe) returns (words: seq<string>)
    requires Words(text, probe).Some?
    ensures ShellReads(text, words)
  {
    hide Posix.Split, Tokenize, ShellRefinement.Values;
    ShellRefinement.TokenizerRefinesPosix(text);
    if Tokenize(text).Ok? {
      words := ShellRefinement.Values(Tokenize(text).value);
    } else {
      var before := text[..|text| - |RedirectSuffix|];
      assert text == before + " < /dev/null 2>&1";
      ShellRefinement.TokenizerRefinesPosix(before);
      words := ShellRefinement.Values(Tokenize(before).value);
    }
  }

  /** The test for leftover wrappers on the words of a view finds just what a shell would run in one. */
  lemma LeafTest(text: string, probe: Probe)
    requires Words(text, probe).Some?
    ensures IsWrapper(ShellRefinement.Values(Words(text, probe).value)) <==>
      exists words :: ShellReads(text, words) && (["runagent"] <= words || ["podman", "exec"] <= words)
  {
    hide Words, ShellReads, IsWrapper, ShellRefinement.Values;
    var words := ReadsSomething(text, probe);
    ReadsAsWords(text, probe, words);
    WrapperIs(words);
    forall words' | ShellReads(text, words')
      ensures IsWrapper(words') <==> IsWrapper(ShellRefinement.Values(Words(text, probe).value))
      ensures IsWrapper(words') <==> ["runagent"] <= words' || ["podman", "exec"] <= words'
    {
      ReadsAsWords(text, probe, words');
      WrapperIs(words');
    }
  }

  // ----- The views ------------------------------------------------------------------------------------------

  /** A wrapper of this kind around a text. */
  ghost predicate Wraps(s: string, prefix: string, inner: string) {
    exists name :: IsWrapping(s, prefix, name, inner)
  }

  ghost predicate WrapsSomething(s: string, prefix: string) {
    exists inner :: Wraps(s, prefix, inner)
  }

  /** The views of a command: itself, what runagent runs in it, and what podman exec runs in that. */
  lemma TextsExactly(command: string, texts: seq<string>)
    ensures texts == Texts(command) <==>
      || (texts == [command]
          && !WrapsSomething(command, "runagent -m ") && !WrapsSomething(command, "podman exec "))
      || (|texts| == 2 && texts[0] == command
          && Wraps(command, "runagent -m ", texts[1]) && !WrapsSomething(texts[1], "podman exec "))
      || (|texts| == 2 && texts[0] == command
          && !WrapsSomething(command, "runagent -m ") && Wraps(command, "podman exec ", texts[1]))
      || (|texts| == 3 && texts[0] == command
          && Wraps(command, "runagent -m ", texts[1]) && Wraps(texts[1], "podman exec ", texts[2]))
  {
    hide Wrapped, Wraps, WrapsSomething;
    WrapsExactly(command, "runagent -m ");
    WrapsExactly(command, "podman exec ");
    if Wrapped(command, "runagent -m ").Some? {
      WrapsExactly(Wrapped(command, "runagent -m ").value, "podman exec ");
    }
  }

  lemma WrapsExactly(s: string, prefix: string)
    ensures forall inner :: Wraps(s, prefix, inner) <==> Wrapped(s, prefix) == Some(inner)
    ensures WrapsSomething(s, prefix) <==> Wrapped(s, prefix).Some?
  {
    hide Wrapped, IsWrapping;
    forall inner
      ensures Wraps(s, prefix, inner) <==> Wrapped(s, prefix) == Some(inner)
    {
      WrappedExactly(s, prefix, inner);
    }
    if Wrapped(s, prefix).Some? {
      assert Wraps(s, prefix, Wrapped(s, prefix).value);
    }
  }

  /** A view has words if it is accepted, or if it is an accepted probe with just this redirection. */
  lemma WordsExactly(text: string, probe: Probe, values: seq<string>)
    ensures Words(text, probe).Some? && ShellRefinement.Values(Words(text, probe).value) == values <==>
      || (Tokenize(text).Ok? && ShellRefinement.Values(Tokenize(text).value) == values)
      || (Tokenize(text).Err? && exists before :: IsProbe(text, probe, before, values))
  {
    hide Tokenize, IsProbe, TlsRedirect, ShellRefinement.Values;
    if Tokenize(text).Err? {
      RedirectExactly(text, probe, values);
    }
  }

  /** The command before the redirection and the values of its words, which the probe's validator accepts. */
  ghost predicate IsProbe(text: string, probe: Probe, before: string, values: seq<string>) {
    && text == before + " < /dev/null 2>&1" && Tokenize(before).Ok?
    && values == ShellRefinement.Values(Tokenize(before).value) + ["<", "/dev/null", "2>&1"]
    && (if ["runagent", "-m"] <= values && probe.isIdentifier(values[2]) then probe.accepts(values[3..])
        else probe.accepts(values))
  }

  lemma RedirectExactly(text: string, probe: Probe, values: seq<string>)
    ensures TlsRedirect(text, probe).Some? && ShellRefinement.Values(TlsRedirect(text, probe).value) == values <==>
      exists before :: IsProbe(text, probe, before, values)
  {
    hide Tokenize, IsProbe;
    var n := |text| - |RedirectSuffix|;
    if n >= 0 && text[n..] == RedirectSuffix {
      ProbeIs(text, probe, text[..n], values);
    }
    forall before | IsProbe(text, probe, before, values)
      ensures n >= 0 && text[n..] == RedirectSuffix && before == text[..n]
    {
      ProbeText(text, probe, before, values);
    }
  }

  lemma ProbeText(text: string, probe: Probe, before: string, values: seq<string>)
    requires IsProbe(text, probe, before, values)
    ensures text == before + RedirectSuffix
  {
    hide Tokenize;
  }

  lemma ProbeIs(text: string, probe: Probe, before: string, values: seq<string>)
    requires text == before + RedirectSuffix
    ensures TlsRedirect(text, probe).Some? && ShellRefinement.Values(TlsRedirect(text, probe).value) == values <==>
      IsProbe(text, probe, before, values)
  {
    hide Tokenize, ShellRefinement.Values;
    assert text[..|text| - |RedirectSuffix|] == before;
    if Tokenize(before).Ok? {
      ExtraValues(Tokenize(before).value);
    }
  }

  lemma ExtraValues(words: seq<Word>)
    ensures ShellRefinement.Values(words + [Extra("<"), Extra("/dev/null"), Extra("2>&1")]) ==
      ShellRefinement.Values(words) + ["<", "/dev/null", "2>&1"]
  {
  }

  /**
    A command is readable if and only if every view has words and a shell runs nothing in a wrapper in
    the innermost one.
   */
  lemma ReadableExactly(command: string, probe: Probe)
    ensures var texts := Texts(command); var innermost := texts[|texts| - 1];
      Readable(command, probe) <==>
      && (forall text | text in texts :: Words(text, probe).Some?)
      && !exists words :: ShellReads(innermost, words) && (["runagent"] <= words || ["podman", "exec"] <= words)
  {
    hide Words, Wrapped, ShellReads, IsWrapper, ShellRefinement.Values;
    var texts := Texts(command);
    var innermost := texts[|texts| - 1];
    assert innermost in texts;
    if Words(innermost, probe).Some? {
      LeafTest(innermost, probe);
    }
  }
}
