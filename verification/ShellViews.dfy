/** commandViews of internal/policy/shell.go: a command and what its runagent and podman wrappers run. */
module ShellViews {
  import opened Ascii
  import opened ShellWords
  import ShellTokenizer
  import ShellRefinement

  // ----- The two wrapper forms -----------------------------------------------------------------------

  predicate IsNameByte(c: char) {
    IsLetter(c) || IsDigit(c) || c == '_' || c == '.' || c == '-'
  }

  /** [a-zA-Z0-9][a-zA-Z0-9_.-]* */
  predicate IsName(s: string) {
    s != "" && (IsLetter(s[0]) || IsDigit(s[0])) && forall i | 0 <= i < |s| :: IsNameByte(s[i])
  }

  function NameLength(s: string): (n: nat)
    ensures n <= |s| && (forall i | 0 <= i < n :: IsNameByte(s[i])) && (n < |s| ==> !IsNameByte(s[n]))
  {
    if s == "" || !IsNameByte(s[0]) then 0 else 1 + NameLength(s[1..])
  }

  predicate StartsWith(s: string, prefix: string) {
    |prefix| <= |s| && s[..|prefix|] == prefix
  }

  /** What `^prefix name (.+)$` captures: a dot matches anything but a newline. */
  function Wrapped(s: string, prefix: string): Option<string> {
    if !StartsWith(s, prefix) then None
    else
      var rest := s[|prefix|..];
      var n := NameLength(rest);
      if IsName(rest[..n]) && n + 1 < |rest| && rest[n] == ' ' && '\n' !in rest[n + 1..] then Some(rest[n + 1..])
      else None
  }

  const RunagentPrefix := "runagent -m "
  const PodmanPrefix := "podman exec "

  // ----- The views -----------------------------------------------------------------------------------

  datatype View = View(text: string, words: seq<Word>)

  /** The TLS probe's arguments and the optional wrapper before them, as the validators judge them. */
  datatype Probe = Probe(isIdentifier: string -> bool, accepts: seq<string> -> bool)

  const RedirectSuffix := " < /dev/null 2>&1"

  /** tokenizeTLSRedirect: the one redirection that is let through, and only for an accepted probe. */
  function TlsRedirect(input: string, probe: Probe): Option<seq<Word>> {
    var n := |input| - |RedirectSuffix|;
    if n < 0 || input[n..] != RedirectSuffix then None
    else
      var prefix := Tokenize(input[..n]);
      if prefix.Err? then None
      else
        var words := prefix.value + [Extra("<"), Extra("/dev/null"), Extra("2>&1")];
        var values := ShellRefinement.Values(words);
        var inner := if |values| >= 3 && values[0] == "runagent" && values[1] == "-m" && probe.isIdentifier(values[2])
                     then values[3..] else values;
        if probe.accepts(inner) then Some(words) else None
  }

  function Extra(value: string): Word {
    Word(value, 0, 0, NoQuote, false)
  }

  /** The words of one view, or None if it cannot be read. */
  function Words(text: string, probe: Probe): Option<seq<Word>> {
    var r := Tokenize(text);
    if r.Ok? then Some(r.value) else TlsRedirect(text, probe)
  }

  function ViewOf(text: string, probe: Probe): View {
    View(text, var w := Words(text, probe); if w.Some? then w.value else [])
  }

  /** The texts of the views, the submitted command first. */
  function Texts(command: string): (r: seq<string>)
    ensures 1 <= |r| <= 3 && r[0] == command
  {
    var outer := Wrapped(command, RunagentPrefix);
    var inner := if outer.Some? then outer.value else command;
    var nested := Wrapped(inner, PodmanPrefix);
    [command] + (if outer.Some? then [inner] else []) + (if nested.Some? then [nested.value] else [])
  }

  /** The innermost text. */
  function Leaf(command: string): string {
    var texts := Texts(command);
    texts[|texts| - 1]
  }

  /** A wrapper that is still there in the innermost view. */
  predicate IsWrapper(words: seq<string>) {
    (|words| > 0 && words[0] == "runagent") || (|words| > 1 && words[0] == "podman" && words[1] == "exec")
  }

  /** Every view can be read and the innermost is no wrapper. */
  predicate Readable(command: string, probe: Probe) {
    && (forall text | text in Texts(command) :: Words(text, probe).Some?)
    && !IsWrapper(ShellRefinement.Values(ViewOf(Leaf(command), probe).words))
  }

  function Views(command: string, probe: Probe): seq<View> {
    var texts := Texts(command);
    seq(|texts|, i requires 0 <= i < |texts| => ViewOf(texts[i], probe))
  }

  method CommandViews(command: string, probe: Probe) returns (views: seq<View>, ok: bool)
    ensures views == Views(command, probe)
    ensures ok == Readable(command, probe)
  {
    hide Tokenize, TlsRedirect, Wrapped, IsWrapper, ShellRefinement.Values;
    var texts := [command];
    var inner := command;
    var outer := Wrapped(command, RunagentPrefix);
    if outer.Some? {
      inner := outer.value;
      texts := texts + [inner];
    }
    var nested := Wrapped(inner, PodmanPrefix);
    if nested.Some? {
      texts := texts + [nested.value];
    }
    assert texts == Texts(command);
    views, ok := [], true;
    for i := 0 to |texts|
      invariant |views| == i && forall k | 0 <= k < i :: views[k] == ViewOf(texts[k], probe)
      invariant ok == forall k | 0 <= k < i :: Words(texts[k], probe).Some?
    {
      var text := texts[i];
      var words, readable := [], true;
      var r := ShellTokenizer.TokenizeShell(text);
      if r.Ok? {
        words := r.value;
      } else {
        var probeWords := TlsRedirect(text, probe);
        if probeWords.Some? {
          words := probeWords.value;
        } else {
          readable := false;
        }
      }
      views := views + [View(text, words)];
      ok := ok && readable;
    }
    var wrapper := EndsInWrapper(views[|views| - 1].words);
    ok := ok && !wrapper;
  }

  /** The test for leftover wrappers. */
  method EndsInWrapper(leaf: seq<Word>) returns (r: bool)
    ensures r == IsWrapper(ShellRefinement.Values(leaf))
  {
    r := |leaf| > 0
      && (leaf[0].value == "runagent" || (|leaf| > 1 && leaf[0].value == "podman" && leaf[1].value == "exec"));
  }
}
