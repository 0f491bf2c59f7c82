/** The text of a hosts file, line by line, as internal/forward/alias.go reads and edits it. */
module HostsText {
  import opened Strings

  // ----- Comments and names --------------------------------------------------------------------------------

  /** How many bytes come before the first #. */
  function HashAt(line: string): (n: nat)
    ensures n <= |line| && (n < |line| ==> line[n] == '#')
  {
    if line == "" || line[0] == '#' then 0 else 1 + HashAt(line[1..])
  }

  function Content(line: string): string {
    line[..HashAt(line)]
  }

  function Comment(line: string): string {
    var n := HashAt(line);
    if n < |line| then TrimSpace(line[n + 1..]) else ""
  }

  /** strings.TrimSuffix(s, ".") */
  function TrimDot(s: string): string {
    if s != "" && s[|s| - 1] == '.' then s[..|s| - 1] else s
  }

  predicate NamesHost(fields: seq<string>, hostname: string) {
    exists i | 1 <= i < |fields| :: FoldsTo(TrimDot(fields[i]), hostname)
  }

  /** resolverLineHasHostname */
  predicate HasHostname(line: string, hostname: string) {
    NamesHost(Fields(TrimSpace(Content(line))), hostname)
  }

  // ----- Lines ---------------------------------------------------------------------------------------

  /** The bytes of the first line, with its newline. */
  function LineLength(text: string): (n: nat)
    ensures n <= |text| && (text != "" ==> n > 0)
  {
    if text == "" then 0 else if text[0] == '\n' then 1 else 1 + LineLength(text[1..])
  }

  predicate EndsLine(text: string) {
    text == "" || text[|text| - 1] == '\n'
  }

  lemma {:induction false} LineExtends(a: string, b: string)
    requires a != "" && EndsLine(a)
    ensures LineLength(a + b) == LineLength(a) && EndsLine(a[LineLength(a)..])
  {
    if a[0] != '\n' {
      assert (a + b)[1..] == a[1..] + b;
      LineExtends(a[1..], b);
      assert a[1..][LineLength(a[1..])..] == a[LineLength(a)..];
    }
  }

  /** How many lines name a host. */
  function Naming(text: string, hostname: string): nat
    decreases |text|
  {
    if text == "" then 0
    else var n := LineLength(text); (if HasHostname(text[..n], hostname) then 1 else 0) + Naming(text[n..], hostname)
  }

  /** How many lines have a comment. */
  function Commented(text: string, comment: string): nat
    decreases |text|
  {
    if text == "" then 0
    else var n := LineLength(text); (if Comment(text[..n]) == comment then 1 else 0) + Commented(text[n..], comment)
  }

  predicate IsOwned(line: string, hostname: string, marker: string) {
    Comment(line) == marker && HasHostname(line, hostname)
  }

  /** The text without the lines that have the marker and name the host. */
  function Without(text: string, hostname: string, marker: string): string
    decreases |text|
  {
    if text == "" then ""
    else
      var n := LineLength(text);
      (if IsOwned(text[..n], hostname, marker) then "" else text[..n]) + Without(text[n..], hostname, marker)
  }

  /** The first line of a text counts for itself. */
  lemma FirstLine(line: string, rest: string, hostname: string, marker: string)
    requires line != "" && LineLength(line + rest) == |line|
    ensures Naming(line + rest, hostname) == (if HasHostname(line, hostname) then 1 else 0) + Naming(rest, hostname)
    ensures Commented(line + rest, marker) == (if Comment(line) == marker then 1 else 0) + Commented(rest, marker)
    ensures Without(line + rest, hostname, marker) ==
      (if IsOwned(line, hostname, marker) then "" else line) + Without(rest, hostname, marker)
  {
  }

  lemma {:induction false} NamingJoins(a: string, b: string, hostname: string)
    requires EndsLine(a)
    ensures Naming(a + b, hostname) == Naming(a, hostname) + Naming(b, hostname)
    decreases |a|
  {
    hide HasHostname;
    if a == "" {
      assert a + b == b;
    } else {
      LineExtends(a, b);
      var n := LineLength(a);
      assert (a + b)[..n] == a[..n] && (a + b)[n..] == a[n..] + b;
      NamingJoins(a[n..], b, hostname);
    }
  }

  lemma {:induction false} CommentedJoins(a: string, b: string, comment: string)
    requires EndsLine(a)
    ensures Commented(a + b, comment) == Commented(a, comment) + Commented(b, comment)
    decreases |a|
  {
    hide Comment;
    if a == "" {
      assert a + b == b;
    } else {
      LineExtends(a, b);
      var n := LineLength(a);
      assert (a + b)[..n] == a[..n] && (a + b)[n..] == a[n..] + b;
      CommentedJoins(a[n..], b, comment);
    }
  }

  lemma Regroup(x: string, y: string, z: string)
    ensures x + (y + z) == x + y + z
  {
  }

  lemma {:induction false} WithoutJoins(a: string, b: string, hostname: string, marker: string)
    requires EndsLine(a)
    ensures Without(a + b, hostname, marker) == Without(a, hostname, marker) + Without(b, hostname, marker)
    decreases |a|
  {
    hide IsOwned, LineLength;
    if a == "" {
      assert a + b == b;
    } else {
      LineExtends(a, b);
      var n := LineLength(a);
      assert (a + b)[..n] == a[..n] && (a + b)[n..] == a[n..] + b;
      WithoutJoins(a[n..], b, hostname, marker);
      var kept := if IsOwned(a[..n], hostname, marker) then "" else a[..n];
      Regroup(kept, Without(a[n..], hostname, marker), Without(b, hostname, marker));
    }
  }

  /** Without a line that has the marker nothing goes. */
  lemma {:induction false} WithoutNothing(text: string, hostname: string, marker: string)
    requires Commented(text, marker) == 0
    ensures Without(text, hostname, marker) == text
    decreases |text|
  {
    hide Comment, HasHostname;
    if text != "" {
      var n := LineLength(text);
      WithoutNothing(text[n..], hostname, marker);
      assert text == text[..n] + text[n..];
    }
  }

  // ----- The newline at the end of a line ------------------------------------------------------------------

  lemma {:induction false} HashStays(line: string, c: char)
    ensures c != '#' ==> HashAt(line + [c]) == if HashAt(line) < |line| then HashAt(line) else |line| + 1
  {
    if line == "" {
      assert (line + [c])[1..] == "";
    } else if line[0] != '#' {
      assert (line + [c])[1..] == line[1..] + [c];
      HashStays(line[1..], c);
    }
  }

  /** A line names the same hosts with its newline and without. */
  lemma NewlineIgnored(line: string, hostname: string)
    ensures HasHostname(line + "\n", hostname) == HasHostname(line, hostname)
  {
    hide NamesHost, Fields, TrimSpace, IsSpaceText;
    HashStays(line, '\n');
    FieldsTrimmed(Content(line));
    FieldsTrimmed(Content(line + "\n"));
    if HashAt(line) < |line| {
      assert Content(line + "\n") == Content(line);
    } else {
      assert Content(line) == line && Content(line + "\n") == line + "\n";
      AsciiSpaces('\n');
      FieldsTrailing(line, "\n");
    }
  }

  /** strings.Split(text, "\n") */
  function Split(text: string): (r: seq<string>)
    ensures r != []
    decreases |text|
  {
    var n := LineLength(text);
    if n > 0 && text[n - 1] == '\n' then [text[..n - 1]] + Split(text[n..]) else [text]
  }

  /** strings.SplitAfter(text, "\n") */
  function SplitAfter(text: string): (r: seq<string>)
    ensures r != []
    decreases |text|
  {
    var n := LineLength(text);
    if n > 0 && text[n - 1] == '\n' then [text[..n]] + SplitAfter(text[n..]) else [text]
  }

  lemma {:induction false} LineWhole(text: string)
    requires text != "" && text[LineLength(text) - 1] != '\n'
    ensures LineLength(text) == |text|
  {
    if |text| > 1 {
      LineWhole(text[1..]);
    }
  }

  predicate AnyNames(lines: seq<string>, hostname: string) {
    exists i | 0 <= i < |lines| :: HasHostname(lines[i], hostname)
  }

  lemma AnyMore(first: string, rest: seq<string>, hostname: string)
    ensures AnyNames([first] + rest, hostname) <==> HasHostname(first, hostname) || AnyNames(rest, hostname)
  {
    hide HasHostname;
    var lines := [first] + rest;
    assert lines[0] == first;
    if AnyNames(rest, hostname) {
      var i :| 0 <= i < |rest| && HasHostname(rest[i], hostname);
      assert lines[i + 1] == rest[i];
    }
  }

  /** Some line of the split text names a host exactly when some line of the text does. */
  lemma {:induction false} SplitNaming(text: string, hostname: string)
    ensures AnyNames(Split(text), hostname) <==> Naming(text, hostname) > 0
    decreases |text|
  {
    hide HasHostname, AnyNames;
    var n := LineLength(text);
    if text == "" {
      EmptyLine(hostname);
      AnyMore("", [], hostname);
      assert Split(text) == [""] + [];
      NoneNames(hostname);
    } else if text[n - 1] == '\n' {
      var first := text[..n - 1];
      SplitNaming(text[n..], hostname);
      NewlineIgnored(first, hostname);
      assert text[..n] == first + "\n";
      AnyMore(first, Split(text[n..]), hostname);
    } else {
      LineWhole(text);
      assert text[..n] == text && text[n..] == "" && Split(text) == [text] + [];
      AnyMore(text, [], hostname);
      NoneNames(hostname);
    }
  }

  lemma NoneNames(hostname: string)
    ensures !AnyNames([], hostname)
  {
  }

  lemma EmptyLine(hostname: string)
    ensures !HasHostname("", hostname) && Comment("") == ""
  {
  }

  // ----- A newline at the end of the file ------------------------------------------------------------------

  lemma CommentNewline(line: string)
    ensures Comment(line + "\n") == Comment(line)
  {
    hide TrimSpace;
    HashStays(line, '\n');
    var n := HashAt(line);
    if n < |line| {
      assert (line + "\n")[n + 1..] == line[n + 1..] + "\n";
      TrimNewline(line[n + 1..]);
    }
  }

  /** Ending the last line changes neither the names nor the comments of a text. */
  lemma {:induction false} EndedSays(text: string, hostname: string, comment: string)
    requires text != "" && !EndsLine(text)
    ensures Naming(text + "\n", hostname) == Naming(text, hostname)
    ensures Commented(text + "\n", comment) == Commented(text, comment)
    decreases |text|
  {
    hide HasHostname, Comment;
    var n := LineLength(text);
    var more := text + "\n";
    EndedLine(text);
    if text[n - 1] == '\n' {
      assert more[..n] == text[..n] && more[n..] == text[n..] + "\n";
      EndedSays(text[n..], hostname, comment);
    } else {
      LineWhole(text);
      NewlineIgnored(text, hostname);
      CommentNewline(text);
      assert text[..n] == text && text[n..] == "" && more[..n + 1] == more && more[n + 1..] == "";
    }
  }

  lemma {:induction false} EndedLine(text: string)
    requires text != ""
    ensures LineLength(text + "\n") == if text[LineLength(text) - 1] == '\n' then LineLength(text) else |text| + 1
  {
    if text[0] != '\n' {
      assert (text + "\n")[1..] == text[1..] + "\n";
      if |text| > 1 {
        EndedLine(text[1..]);
      } else {
        assert text[1..] == "" && LineLength("\n") == 1;
      }
    }
  }

  // ----- Removing lines one by one -----------------------------------------------------------------------

  function Concat(lines: seq<string>): string {
    if lines == [] then "" else lines[0] + Concat(lines[1..])
  }

  function KeptOf(lines: seq<string>, hostname: string, marker: string): seq<string> {
    if lines == [] then []
    else (if IsOwned(lines[0], hostname, marker) then [] else [lines[0]]) + KeptOf(lines[1..], hostname, marker)
  }

  lemma {:induction false} KeptText(text: string, hostname: string, marker: string)
    requires marker != ""
    ensures Concat(KeptOf(SplitAfter(text), hostname, marker)) == Without(text, hostname, marker)
    decreases |text|
  {
    hide HasHostname, Comment;
    var n := LineLength(text);
    EmptyLine(hostname);
    if n > 0 && text[n - 1] == '\n' {
      KeptText(text[n..], hostname, marker);
      var rest := SplitAfter(text[n..]);
      assert ([text[..n]] + rest)[1..] == rest;
      KeptConcat(text[..n], rest, hostname, marker);
    } else {
      assert SplitAfter(text) == [text];
      KeptConcat(text, [], hostname, marker);
      assert [text] + [] == [text];
      if text != "" {
        LineWhole(text);
        assert text[..n] == text && text[n..] == "";
      }
    }
  }

  lemma KeptConcat(line: string, rest: seq<string>, hostname: string, marker: string)
    ensures Concat(KeptOf([line] + rest, hostname, marker)) ==
      (if IsOwned(line, hostname, marker) then "" else line) + Concat(KeptOf(rest, hostname, marker))
  {
    hide IsOwned;
    var kept := KeptOf(rest, hostname, marker);
    assert ([line] + rest)[1..] == rest;
    assert ([line] + kept)[1..] == kept && [] + kept == kept;
    assert "" + Concat(kept) == Concat(kept);
  }
}
