/**
  The argument lists that internal/backend/windmill/windmill.go prints for a remote shell, and what
  a shell makes of them.
 */
module ShellTransport {
  import opened Ascii
  import opened Utf8
  import T = ShellWords
  import P = PosixShell
  import opened ShellRefinement

  // ----- Printing ----------------------------------------------------------------------------------

  /** strings.ReplaceAll(value, "'", ...): every single quote leaves the quotes, quoted otherwise. */
  function EscapeQuotes(value: string): string {
    if value == "" then ""
    else (if value[0] == '\'' then "'\"'\"'" else [value[0]]) + EscapeQuotes(value[1..])
  }

  function ShellQuote(value: string): string {
    if value == "" then "''" else "'" + EscapeQuotes(value) + "'"
  }

  /** The quoted arguments, joined by single spaces. */
  function RemoteCommand(args: seq<string>): string {
    if args == [] then ""
    else if |args| == 1 then ShellQuote(args[0])
    else ShellQuote(args[0]) + " " + RemoteCommand(args[1..])
  }

  datatype Connection = Connection(host: string, port: int)

  function Digits(n: nat): string {
    if n < 10 then [('0' as int + n) as char] else Digits(n / 10) + [('0' as int + n % 10) as char]
  }

  /** strconv.Itoa */
  function Itoa(n: int): string {
    if n < 0 then "-" + Digits(-n) else Digits(n)
  }

  function Destination(connection: Connection): string {
    if ':' in connection.host then "root@[" + connection.host + "]" else "root@" + connection.host
  }

  function LegacyArgs(connection: Connection, targetCommand: string,
                      forwardOnly: bool, forwardSpec: string): seq<string> {
    ["ssh",
     "-o", "BatchMode=yes",
     "-o", "LogLevel=ERROR",
     "-o", "UserKnownHostsFile=/dev/null",
     "-o", "StrictHostKeyChecking=no",
     "-p", Itoa(connection.port)]
    + (if forwardOnly then ["-o", "ExitOnForwardFailure=yes", "-N", "-L", forwardSpec] else [])
    + [Destination(connection)]
    + (if targetCommand != "" then [targetCommand] else [])
  }

  function LegacySSHCommand(connection: Connection, targetCommand: string,
                            forwardOnly: bool, forwardSpec: string): string {
    RemoteCommand(LegacyArgs(connection, targetCommand, forwardOnly, forwardSpec))
  }

  // ----- Read back by a shell ----------------------------------------------------------------------

  lemma {:induction false} SplitQuoted(words: seq<string>, value: string, x: string)
    ensures P.Run(P.Single(words, value), EscapeQuotes(x)) == P.Single(words, value + x)
    decreases |x|
  {
    if x == "" {
      assert value + x == value;
    } else {
      var s, rest := EscapeQuotes(x), EscapeQuotes(x[1..]);
      SplitQuoted(words, value + [x[0]], x[1..]);
      assert value + [x[0]] + x[1..] == value + x;
      if x[0] == '\'' {
        SplitEscapedQuote(words, value);
        P.RunJoins(P.Single(words, value), "'\"'\"'", rest);
      } else {
        assert s[1..] == rest;
      }
    }
  }

  lemma SplitEscapedQuote(words: seq<string>, value: string)
    ensures P.Run(P.Single(words, value), "'\"'\"'") == P.Single(words, value + ['\''])
  {
  }

  lemma SplitByte(state: P.State, c: char, rest: string)
    ensures P.Run(state, [c] + rest) == P.Run(P.Step(state, c), rest)
  {
  }

  lemma SplitShellQuote(words: seq<string>, x: string)
    ensures P.Run(P.Gap(words), ShellQuote(x)) == P.Token(words, x, false)
  {
    hide P.Run, EscapeQuotes;
    var inner := EscapeQuotes(x);
    EscapeEmpty();
    assert ShellQuote(x) == ['\''] + (inner + "'");
    SplitByte(P.Gap(words), '\'', inner + "'");
    P.RunJoins(P.Single(words, ""), inner, "'");
    SplitQuoted(words, "", x);
    assert "" + x == x;
    assert "'" == ['\''] + "";
    SplitByte(P.Single(words, x), '\'', "");
    SplitNothing(P.Token(words, x, false));
  }

  lemma EscapeEmpty()
    ensures EscapeQuotes("") == ""
  {
  }

  lemma SplitNothing(state: P.State)
    ensures P.Run(state, "") == state
  {
  }

  lemma {:induction false} SplitRemote(words: seq<string>, args: seq<string>)
    ensures P.Finish(P.Run(P.Gap(words), RemoteCommand(args))) == Some(words + args)
    decreases |args|
  {
    hide P.Run, ShellQuote;
    if args == [] {
      SplitNothing(P.Gap(words));
      assert words + args == words;
    } else {
      SplitShellQuote(words, args[0]);
      if |args| == 1 {
        assert words + args == words + [args[0]];
      } else {
        var rest := RemoteCommand(args[1..]);
        assert RemoteCommand(args) == ShellQuote(args[0]) + ([' '] + rest);
        P.RunJoins(P.Gap(words), ShellQuote(args[0]), [' '] + rest);
        SplitByte(P.Token(words, args[0], false), ' ', rest);
        SplitRemote(words + [args[0]], args[1..]);
        assert words + [args[0]] + args[1..] == words + args;
      }
    }
  }

  /** A shell recovers every argument list exactly. */
  lemma RemoteCommandRoundTrip(args: seq<string>)
    ensures P.Split(RemoteCommand(args)) == Some(args)
  {
    hide P.Run, RemoteCommand;
    SplitRemote([], args);
    assert [] + args == args;
  }

  lemma RemoteCommandInjective(a: seq<string>, b: seq<string>)
    requires RemoteCommand(a) == RemoteCommand(b)
    ensures a == b
  {
    hide *;
    RemoteCommandRoundTrip(a);
    RemoteCommandRoundTrip(b);
  }

  // ----- The arguments of ssh ----------------------------------------------------------------------------

  /** What a text of decimal digits stands for. */
  function DecimalValue(digits: string): int {
    if digits == "" then 0
    else
      var n := |digits| - 1;
      10 * DecimalValue(digits[..n]) + (digits[n] as int - '0' as int)
  }

  predicate IsDecimal(text: string) {
    text != "" && forall i | 0 <= i < |text| :: '0' <= text[i] <= '9'
  }

  /** A text that a decimal number is written with, behind a minus sign if it is negative. */
  predicate WritesNumber(text: string, n: int) {
    if n < 0 then text != "" && text[0] == '-' && IsDecimal(text[1..]) && DecimalValue(text[1..]) == -n
    else IsDecimal(text) && DecimalValue(text) == n
  }

  lemma {:induction false} DigitsWrite(n: nat)
    ensures IsDecimal(Digits(n)) && DecimalValue(Digits(n)) == n
  {
    var text := Digits(n);
    if n < 10 {
      assert text[..0] == "";
    } else {
      DigitsWrite(n / 10);
      assert text[..|text| - 1] == Digits(n / 10);
    }
  }

  lemma ItoaWrites(n: int)
    ensures WritesNumber(Itoa(n), n)
  {
    if n < 0 {
      DigitsWrite(-n);
      assert ("-" + Digits(-n))[1..] == Digits(-n);
    } else {
      DigitsWrite(n);
    }
  }

  /**
    The legacy path quotes twice: the bastion's shell splits off the ssh arguments with the target
    command as the last one, and the target's shell splits that into sh, -lc and the payload. The host
    is in brackets exactly if it has a colon.
   */
  lemma LegacyRoundTrip(connection: Connection, payload: string) returns (port: string)
    ensures WritesNumber(port, connection.port)
    ensures var target := RemoteCommand(["sh", "-lc", payload]);
      var host := connection.host;
      && P.Split(LegacySSHCommand(connection, target, false, "")) ==
         Some(["ssh", "-o", "BatchMode=yes", "-o", "LogLevel=ERROR", "-o", "UserKnownHostsFile=/dev/null",
               "-o", "StrictHostKeyChecking=no", "-p", port,
               if ':' in host then "root@[" + host + "]" else "root@" + host, target])
      && P.Split(target) == Some(["sh", "-lc", payload])
  {
    hide P.Split, RemoteCommand, Itoa, WritesNumber, Destination;
    port := Itoa(connection.port);
    ItoaWrites(connection.port);
    var target := RemoteCommand(["sh", "-lc", payload]);
    RemoteCommandRoundTrip(["sh", "-lc", payload]);
    RemoteCommandRoundTrip([]);
    assert target != "" by {
      RemoteEmpty();
    }
    var args := LegacyArgs(connection, target, false, "");
    RemoteCommandRoundTrip(args);
    assert args ==
      ["ssh", "-o", "BatchMode=yes", "-o", "LogLevel=ERROR", "-o", "UserKnownHostsFile=/dev/null",
       "-o", "StrictHostKeyChecking=no", "-p", port, Destination(connection), target];
    DestinationIs(connection);
  }

  lemma DestinationIs(connection: Connection)
    ensures Destination(connection) ==
      if ':' in connection.host then "root@[" + connection.host + "]" else "root@" + connection.host
  {
  }

  lemma RemoteEmpty()
    ensures RemoteCommand([]) == ""
  {
  }

  /** A forward's specification reaches the second ssh as the single argument after -L. */
  lemma ForwardRoundTrip(connection: Connection, spec: string) returns (port: string)
    ensures WritesNumber(port, connection.port)
    ensures var host := connection.host;
      P.Split(LegacySSHCommand(connection, "", true, spec)) ==
      Some(["ssh", "-o", "BatchMode=yes", "-o", "LogLevel=ERROR", "-o", "UserKnownHostsFile=/dev/null",
            "-o", "StrictHostKeyChecking=no", "-p", port, "-o", "ExitOnForwardFailure=yes", "-N", "-L", spec,
            if ':' in host then "root@[" + host + "]" else "root@" + host])
  {
    hide P.Split, RemoteCommand, Itoa, WritesNumber, Destination;
    port := Itoa(connection.port);
    ItoaWrites(connection.port);
    var args := LegacyArgs(connection, "", true, spec);
    RemoteCommandRoundTrip(args);
    assert args ==
      ["ssh", "-o", "BatchMode=yes", "-o", "LogLevel=ERROR", "-o", "UserKnownHostsFile=/dev/null",
       "-o", "StrictHostKeyChecking=no", "-p", port, "-o", "ExitOnForwardFailure=yes", "-N", "-L", spec,
       Destination(connection)];
    DestinationIs(connection);
  }

  // ----- Read back by the policy's tokenizer -----------------------------------------------------------

  predicate NoControl(x: string) {
    forall i | 0 <= i < |x| :: !T.IsControlByte(x[i])
  }

  /** In a single-quoted segment. */
  predicate InSingle(state: T.State) {
    state.Quoted? && state.mark == '\'' && !state.dollar
  }

  lemma InSingleByte(state: T.State, c: char)
    requires InSingle(state) && c != '\'' && !T.IsControlByte(c)
    ensures InSingle(T.Step(state, c))
  {
  }

  lemma InSingleQuote(state: T.State)
    requires InSingle(state)
    ensures InSingle(T.Run(state, "'\"'\"'"))
  {
  }

  lemma TokenByte(state: T.State, c: char, rest: string)
    ensures T.Run(state, [c] + rest) == T.Run(T.Step(state, c), rest)
  {
  }

  lemma {:induction false} TokenQuoted(state: T.State, x: string)
    requires InSingle(state) && NoControl(x)
    ensures InSingle(T.Run(state, EscapeQuotes(x)))
    decreases |x|
  {
    hide T.Step, T.IsControlByte, InSingle;
    if x != "" {
      var rest := EscapeQuotes(x[1..]);
      if x[0] == '\'' {
        InSingleQuote(state);
        T.RunJoins(state, "'\"'\"'", rest);
        TokenQuoted(T.Run(state, "'\"'\"'"), x[1..]);
      } else {
        InSingleByte(state, x[0]);
        TokenByte(state, x[0], rest);
        TokenQuoted(T.Step(state, x[0]), x[1..]);
      }
    }
  }

  lemma TokenShellQuote(words: seq<T.Word>, at: nat, x: string)
    requires NoControl(x)
    ensures var end := T.Run(T.Between(words, at), ShellQuote(x)); end.Inside? && !end.dollar
  {
    hide T.Run, EscapeQuotes, NoControl;
    var inner := EscapeQuotes(x);
    EscapeEmpty();
    assert ShellQuote(x) == ['\''] + (inner + ['\'']);
    var first := T.Step(T.Between(words, at), '\'');
    TokenByte(T.Between(words, at), '\'', inner + ['\'']);
    T.RunJoins(first, inner, ['\'']);
    TokenQuoted(first, x);
    T.RunOne(T.Run(first, inner), '\'');
  }

  lemma {:induction false} TokenRemote(words: seq<T.Word>, at: nat, args: seq<string>)
    requires args != [] && forall i | 0 <= i < |args| :: NoControl(args[i])
    ensures T.Run(T.Between(words, at), RemoteCommand(args)).Inside?
    decreases |args|
  {
    hide T.Run, ShellQuote, NoControl;
    TokenShellQuote(words, at, args[0]);
    if |args| > 1 {
      var rest := RemoteCommand(args[1..]);
      var end := T.Run(T.Between(words, at), ShellQuote(args[0]));
      assert RemoteCommand(args) == ShellQuote(args[0]) + ([' '] + rest);
      T.RunJoins(T.Between(words, at), ShellQuote(args[0]), [' '] + rest);
      TokenByte(end, ' ', rest);
      var next := T.Step(end, ' ');
      TokenRemote(next.words, next.at, args[1..]);
    }
  }

  lemma {:induction false} CleanEscaped(x: string, i: nat)
    requires i <= |x| && '\'' !in x[..i]
    ensures IsClean(x[..i] + EscapeQuotes(x[i..])) <==> IsClean(x)
    decreases |x|, |x| - i
  {
    hide IsClean;
    if i == |x| {
      assert x[..i] + EscapeQuotes("") == x;
    } else if x[i] == '\'' {
      var a, b := x[..i], EscapeQuotes(x[i + 1..]);
      assert x[i..][1..] == x[i + 1..];
      assert EscapeQuotes(x[i..]) == ['\''] + ("\"'\"'" + b);
      assert a + EscapeQuotes(x[i..]) == a + ['\''] + ("\"'\"'" + b);
      CleanSplits(a, '\'', "\"'\"'" + b);
      PrintableIsClean("\"'\"'");
      CleanJoins("\"'\"'", b);
      CleanEscaped(x[i + 1..], 0);
      assert x[i + 1..][..0] + EscapeQuotes(x[i + 1..][0..]) == b;
      assert x == a + ['\''] + x[i + 1..];
      CleanSplits(a, '\'', x[i + 1..]);
    } else {
      assert x[i..][1..] == x[i + 1..];
      assert x[..i] + EscapeQuotes(x[i..]) == x[..i + 1] + EscapeQuotes(x[i + 1..]);
      CleanEscaped(x, i + 1);
    }
  }

  lemma CleanShellQuote(x: string)
    ensures IsClean(ShellQuote(x)) <==> IsClean(x)
  {
    hide IsClean, EscapeQuotes;
    var inner := EscapeQuotes(x);
    EscapeEmpty();
    CleanEscaped(x, 0);
    assert x[0..] == x && x[..0] + inner == inner;
    CleanSplits("", '\'', inner + "'");
    CleanSplits(inner, '\'', "");
    PrintableIsClean("");
    assert ShellQuote(x) == "" + ['\''] + (inner + "'");
    assert inner + "'" == inner + ['\''] + "";
  }

  lemma {:induction false} CleanRemote(args: seq<string>)
    ensures IsClean(RemoteCommand(args)) <==> forall i | 0 <= i < |args| :: IsClean(args[i])
    decreases |args|
  {
    hide IsClean, ShellQuote;
    if args == [] {
      PrintableIsClean("");
    } else {
      CleanShellQuote(args[0]);
      CleanRemote(args[1..]);
      var rest := RemoteCommand(args[1..]);
      CleanSplits(ShellQuote(args[0]), ' ', rest);
      assert forall i | 1 <= i < |args| :: args[i] == args[1..][i - 1];
      assert |args| > 1 ==> RemoteCommand(args) == ShellQuote(args[0]) + [' '] + rest;
    }
  }

  /**
    The policy reads the same arguments back, exactly when no argument has a character that it
    refuses everywhere.
   */
  lemma RemoteCommandTokenizes(args: seq<string>)
    ensures var r := T.Tokenize(RemoteCommand(args));
      && (r.Ok? <==> args != [] && forall i | 0 <= i < |args| :: IsClean(args[i]))
      && (r.Ok? ==> Values(r.value) == args)
  {
    hide P.Run, T.Run, P.Split, RemoteCommand, IsClean, NoControl, Values, Runes, NoneForbidden;
    var text := RemoteCommand(args);
    CleanRemote(args);
    TokenizeNeedsClean(text);
    if args == [] {
      RemoteEmpty();
      TokenizeEmpty();
    } else if forall i | 0 <= i < |args| :: IsClean(args[i]) {
      forall i | 0 <= i < |args|
        ensures NoControl(args[i])
      {
        CleanNoControl(args[i]);
      }
      TokenRemote([], 0, args);
      RemoteCommandRoundTrip(args);
      TokenizerRefinesPosix(text);
    }
  }

  lemma TokenizeNeedsClean(s: string)
    ensures T.Tokenize(s).Ok? ==> IsClean(s)
    ensures IsClean(s) ==> T.Tokenize(s) == T.Finish(T.Run(T.Start, s))
  {
  }

  lemma TokenizeEmpty()
    ensures T.Tokenize("").Err?
  {
  }

  lemma CleanNoControl(x: string)
    requires IsClean(x)
    ensures NoControl(x)
  {
    hide IsClean;
    forall i | 0 <= i < |x|
      ensures !T.IsControlByte(x[i])
    {
      CleanBytes(x, i);
    }
  }
}
