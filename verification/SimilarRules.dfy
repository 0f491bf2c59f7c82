/** What a target rule made by SimilarPattern changes in the policy's decisions. */
module SimilarRules {
  import opened Ascii
  import opened Utf8
  import opened ShellWords
  import opened ShellViews
  import opened SimilarPattern
  import opened SimilarWords
  import opened PolicyEngine
  import opened ShellAcceptance
  import opened ShellWrappers
  import ShellJoining
  import ShellRefinement

  // ----- The views of joined fields ---------------------------------------------------------------------

  lemma {:induction false} FieldEnds(x: string, rest: string)
    requires ' ' !in x && (rest != "" ==> rest[0] == ' ')
    ensures FieldLength(x + rest) == |x|
    decreases |x|
  {
    if x == "" {
      assert x + rest == rest;
    } else {
      assert (x + rest)[1..] == x[1..] + rest && (x + rest)[0] == x[0];
      FieldEnds(x[1..], rest);
    }
  }

  /** The first space of a text is at one place. */
  lemma FirstSpace(x: string, r: string, y: string, q: string)
    requires ' ' !in x && ' ' !in y && x + " " + r == y + " " + q
    ensures x == y && r == q
  {
    var s, t := x + " " + r, y + " " + q;
    FieldEnds(x, " " + r);
    FieldEnds(y, " " + q);
    assert s == x + (" " + r) && t == y + (" " + q);
    assert s[..|x|] == x && t[..|y|] == y && s[|x| + 1..] == r && t[|y| + 1..] == q;
  }

  lemma JoinFirst(fields: seq<string>)
    requires fields != []
    ensures Join(fields) == if |fields| == 1 then fields[0] else fields[0] + " " + Join(fields[1..])
  {
  }

  lemma JoinStarts(fields: seq<string>, y: string, q: string)
    requires fields != [] && AreFields(fields) && ' ' !in y && Join(fields) == y + " " + q
    ensures |fields| > 1 && fields[0] == y && Join(fields[1..]) == q
  {
    hide Join, FieldLength;
    assert IsField(fields[0]);
    FieldEnds(fields[0], "");
    FieldEnds(y, " " + q);
    assert y + (" " + q) == y + " " + q && fields[0] + "" == fields[0];
    JoinFirst(fields);
    if |fields| > 1 {
      FirstSpace(fields[0], Join(fields[1..]), y, q);
    }
  }

  /** The fields of what a wrapper runs. */
  function InnerFields(fields: seq<string>, a: string, b: string): Option<seq<string>> {
    if |fields| > 3 && fields[0] == a && fields[1] == b && IsName(fields[2]) then Some(fields[3..]) else None
  }

  lemma JoinThree(fields: seq<string>)
    requires |fields| > 3
    ensures Join(fields) == fields[0] + " " + fields[1] + " " + fields[2] + " " + Join(fields[3..])
  {
    hide Join;
    assert fields[1..][1..] == fields[2..] && fields[2..][1..] == fields[3..];
    JoinFirst(fields);
    JoinFirst(fields[1..]);
    JoinFirst(fields[2..]);
    SpacedOut(fields[0], fields[1], fields[2], Join(fields[3..]));
  }

  lemma SpacedOut(a: string, b: string, c: string, d: string)
    ensures a + " " + (b + " " + (c + " " + d)) == a + " " + b + " " + c + " " + d
  {
  }

  lemma JoinedWrapping(fields: seq<string>, a: string, b: string, name: string, inner: string)
    requires fields != [] && AreFields(fields) && ' ' !in a && ' ' !in b && IsName(name)
    requires Join(fields) == a + " " + b + " " + name + " " + inner && inner != ""
    ensures InnerFields(fields, a, b).Some? && Join(fields[3..]) == inner
  {
    hide Join, IsField;
    NameBytes(name);
    assert Join(fields) == a + " " + (b + " " + name + " " + inner);
    JoinStarts(fields, a, b + " " + name + " " + inner);
    assert b + " " + name + " " + inner == b + " " + (name + " " + inner);
    var f1 := fields[1..];
    JoinStarts(f1, b, name + " " + inner);
    var f2 := f1[1..];
    assert f2 == fields[2..];
    JoinStarts(f2, name, inner);
    assert f2[1..] == fields[3..];
  }

  lemma {:induction false} JoinNotEmpty(fields: seq<string>)
    requires fields != [] && AreFields(fields)
    ensures Join(fields) != "" && !ShellJoining.AllSpaces(Join(fields))
  {
    assert IsField(fields[0]);
    assert Join(fields)[0] == fields[0][0];
  }

  lemma NoNewline(s: string)
    requires IsClean(s)
    ensures '\n' !in s
  {
    hide IsClean;
    forall i | 0 <= i < |s|
      ensures s[i] != '\n'
    {
      CleanBytes(s, i);
    }
  }

  lemma WrappedFields(fields: seq<string>, a: string, b: string)
    requires fields != [] && AreFields(fields) && IsClean(Join(fields)) && ' ' !in a && ' ' !in b
    ensures Wrapped(Join(fields), a + " " + b + " ") ==
      (var inner := InnerFields(fields, a, b); if inner.Some? then Some(Join(inner.value)) else None)
    ensures InnerFields(fields, a, b).Some? ==> AreFields(fields[3..]) && IsClean(Join(fields[3..]))
  {
    hide Wrapped, IsName, IsClean, Join, IsField, IsWrapping;
    var s, prefix := Join(fields), a + " " + b + " ";
    if InnerFields(fields, a, b).Some? {
      var inner := Join(fields[3..]);
      JoinThree(fields);
      assert s == prefix + fields[2] + " " + inner;
      CleanSplits(prefix + fields[2], ' ', inner);
      JoinNotEmpty(fields[3..]);
      NoNewline(inner);
      WrappingName(s, prefix, fields[2], inner);
      WrappedExactly(s, prefix, inner);
    } else if Wrapped(s, prefix).Some? {
      var inner := Wrapped(s, prefix).value;
      WrappedExactly(s, prefix, inner);
      var name :| IsWrapping(s, prefix, name, inner);
      WrappingName(s, prefix, name, inner);
      assert s == a + " " + b + " " + name + " " + inner;
      JoinedWrapping(fields, a, b, name, inner);
      assert false;
    }
  }

  /** The views of a command with these fields. */
  function FieldTexts(fields: seq<string>): seq<seq<string>> {
    var outer := InnerFields(fields, "runagent", "-m");
    var inner := if outer.Some? then outer.value else fields;
    var nested := InnerFields(inner, "podman", "exec");
    [fields] + (if outer.Some? then [inner] else []) + (if nested.Some? then [nested.value] else [])
  }

  function JoinAll(fieldTexts: seq<seq<string>>): seq<string> {
    seq(|fieldTexts|, i requires 0 <= i < |fieldTexts| => Join(fieldTexts[i]))
  }

  lemma TextsOfFields(fields: seq<string>)
    requires fields != [] && AreFields(fields) && IsClean(Join(fields))
    ensures Texts(Join(fields)) == JoinAll(FieldTexts(fields))
  {
    hide Wrapped, IsName, IsClean, Join, IsField;
    WrappedFields(fields, "runagent", "-m");
    assert "runagent" + " " + "-m" + " " == RunagentPrefix && "podman" + " " + "exec" + " " == PodmanPrefix;
    var outer := InnerFields(fields, "runagent", "-m");
    WrappedFields(if outer.Some? then outer.value else fields, "podman", "exec");
  }

  lemma InnerAlike(a: seq<string>, b: seq<string>, x: string, y: string)
    requires Alike(a, b) && AreFields(a) && !HasDigit(x) && !HasDigit(y)
    ensures InnerFields(a, x, y).Some? <==> InnerFields(b, x, y).Some?
    ensures InnerFields(a, x, y).Some? ==>
      AreFields(a[3..]) && a[3..] != [] && Alike(InnerFields(a, x, y).value, InnerFields(b, x, y).value)
  {
    hide IsField, AllDigits, HasDigit, IsName;
    if |a| > 3 {
      if a[0] != b[0] {
        NumberHasDigit(a[0]);
        NumberHasDigit(b[0]);
      }
      if a[1] != b[1] {
        NumberHasDigit(a[1]);
        NumberHasDigit(b[1]);
      }
      if a[2] != b[2] {
        NumberIsName(a[2]);
        NumberIsName(b[2]);
      }
    }
  }

  lemma NumberIsName(x: string)
    requires AllDigits(x)
    ensures IsName(x)
  {
  }

  /** Views that correspond. */
  ghost predicate AlikeTexts(x: seq<seq<string>>, y: seq<seq<string>>) {
    |x| == |y| && forall i | 0 <= i < |x| :: x[i] != [] && AreFields(x[i]) && Alike(x[i], y[i])
  }

  lemma FieldTextsAlike(a: seq<string>, b: seq<string>)
    requires a != [] && Alike(a, b) && AreFields(a)
    ensures AlikeTexts(FieldTexts(a), FieldTexts(b))
  {
    hide IsField, AllDigits, HasDigit, IsName, Alike, AreFields, InnerFields;
    WrapperWords();
    InnerAlike(a, b, "runagent", "-m");
    var outer, outer' := InnerFields(a, "runagent", "-m"), InnerFields(b, "runagent", "-m");
    InnerSome(a, "runagent", "-m");
    var inner := if outer.Some? then outer.value else a;
    var inner' := if outer'.Some? then outer'.value else b;
    InnerAlike(inner, inner', "podman", "exec");
    InnerSome(inner, "podman", "exec");
  }

  lemma InnerSome(a: seq<string>, x: string, y: string)
    ensures InnerFields(a, x, y).Some? ==> |a| > 3 && InnerFields(a, x, y).value == a[3..]
  {
  }

  lemma WrapperWords()
    ensures !HasDigit("runagent") && !HasDigit("-m") && !HasDigit("podman") && !HasDigit("exec")
  {
  }

  // ----- Reading them ----------------------------------------------------------------------------------

  /** When the whole command can be read, every view of it can. */
  lemma ViewsTokenize(fields: seq<string>)
    requires fields != [] && AreFields(fields) && Tokenize(Join(fields)).Ok?
    ensures forall text | text in Texts(Join(fields)) :: Tokenize(text).Ok?
  {
    hide Wrapped, Tokenize, Join, IsField;
    var s := Join(fields);
    JoinNotEmpty(fields);
    var outer := Wrapped(s, RunagentPrefix);
    if outer.Some? {
      assert "runagent" + " " + "-m" + " " == RunagentPrefix;
      InnerTokenizes(fields, "runagent", "-m", RunagentPrefix);
    }
    var innerFields := if outer.Some? then fields[3..] else fields;
    if Wrapped(Join(innerFields), PodmanPrefix).Some? {
      assert "podman" + " " + "exec" + " " == PodmanPrefix;
      InnerTokenizes(innerFields, "podman", "exec", PodmanPrefix);
    }
  }

  lemma InnerTokenizes(fields: seq<string>, a: string, b: string, prefix: string)
    requires ' ' !in a && ' ' !in b && prefix == a + " " + b + " "
    requires (prefix == RunagentPrefix || prefix == PodmanPrefix)
    requires fields != [] && AreFields(fields) && Tokenize(Join(fields)).Ok? && Wrapped(Join(fields), prefix).Some?
    ensures var inner := Wrapped(Join(fields), prefix).value;
      Tokenize(inner).Ok? && |fields| > 3 && inner == Join(fields[3..]) && AreFields(fields[3..])
  {
    hide *;
    ShellJoining.CleanTokenize(Join(fields));
    WrappedFields(fields, a, b);
    InnerSome(fields, a, b);
    JoinNotEmpty(fields[3..]);
    WrappedTokenizes(Join(fields), prefix);
  }

  lemma NearWrapper(a: seq<Word>, b: seq<Word>)
    requires NearWords(a, b)
    ensures IsWrapper(ShellRefinement.Values(a)) <==> IsWrapper(ShellRefinement.Values(b))
  {
  }

  /** A command whose views can all be read is readable unless a wrapper is left over. */
  lemma ReadableLeaf(command: string, probe: Probe)
    requires forall text | text in Texts(command) :: Tokenize(text).Ok?
    ensures Tokenize(Leaf(command)).Ok?
    ensures Readable(command, probe) <==> !IsWrapper(ShellRefinement.Values(Tokenize(Leaf(command)).value))
  {
  }

  /** Commands that differ in numbers only are readable or not alike. */
  lemma AlikeReadable(a: seq<string>, b: seq<string>, probe: Probe)
    requires a != [] && AreFields(a) && Alike(a, b) && Tokenize(Join(a)).Ok?
    ensures Readable(Join(a), probe) <==> Readable(Join(b), probe)
  {
    hide Texts, Wrapped, Tokenize, Join, IsField, IsClean, FieldTexts, Alike, IsWrapper, NearWords, Readable, AreFields;
    hide ShellRefinement.Values;
    AlikeFields(a, b);
    AlikeTokenize(a, b);
    AlikeSize(a, b);
    ShellJoining.CleanTokenize(Join(a));
    ShellJoining.CleanTokenize(Join(b));
    TextsOfFields(a);
    TextsOfFields(b);
    FieldTextsAlike(a, b);
    ViewsTokenize(a);
    ViewsTokenize(b);
    ReadableLeaf(Join(a), probe);
    ReadableLeaf(Join(b), probe);
    var x, y := FieldTexts(a), FieldTexts(b);
    var n := |x| - 1;
    assert Leaf(Join(a)) == Join(x[n]) && Leaf(Join(b)) == Join(y[n]);
    AlikeTokenize(x[n], y[n]);
    NearWrapper(Tokenize(Join(x[n])).value, Tokenize(Join(y[n])).value);
  }

  lemma AlikeSize(a: seq<string>, b: seq<string>)
    requires Alike(a, b)
    ensures |a| == |b|
  {
  }

  // ----- The rule --------------------------------------------------------------------------------------

  /** Go's regular expressions read the small language of such patterns as they should, on UTF-8 text. */
  ghost predicate Faithful(lib: Library) {
    forall pattern, s | lib.compiles(pattern) && IsPattern(pattern) && Runes(s).Some? ::
      lib.matches(pattern, s) <==> PatternMatches(pattern, s)
  }

  lemma SimilarIsPattern(payload: string)
    ensures IsPattern(SimilarText(payload))
  {
    PatternIsRead(SimilarElements(payload), "");
  }

  lemma SimpleFields(payload: string)
    requires IsSimple(payload)
    ensures AreFields(SpacedFields(payload)) && SpacedFields(payload) != [] && Join(SpacedFields(payload)) == payload
    ensures Tokenize(payload).Ok?
  {
    hide Tokenize, SpacedFields, Join, AreFields;
    FieldsAreFields(payload);
  }

  // ----- Plain commands ----------------------------------------------------------------------------------

  /** A field that needs no quoting. */
  predicate IsPlainField(x: string) {
    x != "" && forall i | 0 <= i < |x| :: IsBareByte(x[i])
  }

  predicate ArePlainFields(fields: seq<string>) {
    fields != [] && forall i | 0 <= i < |fields| :: IsPlainField(fields[i])
  }

  lemma PlainIsField(x: string)
    requires IsPlainField(x)
    ensures IsField(x)
  {
  }

  lemma {:induction false} FieldsOfJoined(fields: seq<string>)
    requires AreFields(fields)
    ensures SpacedFields(Join(fields)) == fields
    decreases |fields|
  {
    if fields != [] {
      var x, s := fields[0], Join(fields);
      assert IsField(x);
      if |fields| == 1 {
        FieldEnds(x, "");
        assert s + "" == s && s[|x|..] == "";
      } else {
        var rest := Join(fields[1..]);
        FieldsOfJoined(fields[1..]);
        FieldEnds(x, " " + rest);
        assert s == x + (" " + rest) && s[..|x|] == x && s[|x|..] == " " + rest && (" " + rest)[1..] == rest;
        assert fields == [x] + fields[1..];
      }
    }
  }

  lemma {:induction false} PlainTokenizes(fields: seq<string>)
    requires ArePlainFields(fields)
    ensures Tokenize(Join(fields)).Ok?
    decreases |fields|
  {
    hide Tokenize, IsPlainField;
    var x := fields[0];
    PlainBytes(x);
    BareWord(x);
    if |fields| > 1 {
      PlainTokenizes(fields[1..]);
      ShellJoining.JoinAtSpace(x, Join(fields[1..]));
    }
  }

  lemma PlainBytes(x: string)
    requires IsPlainField(x)
    ensures x != "" && forall i | 0 <= i < |x| :: IsBareByte(x[i])
  {
  }

  lemma {:induction false} JoinUnquoted(fields: seq<string>)
    requires AreFields(fields)
    ensures '\'' !in Join(fields) && '"' !in Join(fields)
    decreases |fields|
  {
    if fields != [] {
      assert IsField(fields[0]);
      JoinUnquoted(fields[1..]);
    }
  }

  /**
    The pattern of fields that need no quoting, with single spaces, matches just what has the same first
    field and after it the same fields but for those that are numbers, in whose places there are numbers.
   */
  lemma PlainGeneralises(fields: seq<string>, s: string)
    requires ArePlainFields(fields)
    ensures PatternMatches(SimilarText(Join(fields)), s) <==>
      exists xs: seq<string> ::
        && |xs| == |fields| && xs[0] == fields[0] && s == Join(xs)
        && forall i | 0 < i < |fields| :: xs[i] == fields[i] || (IsDecimalText(xs[i]) && IsDecimalText(fields[i]))
  {
    hide PatternMatches, SimilarText, Tokenize, SpacedFields, Join, IsPlainField, IsField;
    forall i | 0 <= i < |fields|
      ensures IsField(fields[i])
    {
      PlainIsField(fields[i]);
    }
    FieldsOfJoined(fields);
    PlainTokenizes(fields);
    JoinUnquoted(fields);
    SimilarExactly(Join(fields), s);
    assert IsSimple(Join(fields));
  }

  predicate IsDecimalText(x: string) {
    x != "" && forall i | 0 <= i < |x| :: '0' <= x[i] <= '9'
  }

  lemma MatchIsRead(payload: string, command: string, probe: Probe)
    requires PatternMatches(SimilarText(payload), command)
    ensures Readable(command, probe) <==> Readable(payload, probe)
    ensures Tokenize(payload).Ok? <==> Tokenize(command).Ok?
    ensures Tokenize(payload).Ok? ==> |Tokenize(payload).value| == |Tokenize(command).value|
  {
    hide PatternMatches, SimilarText, Tokenize, SpacedFields, Join, Readable, AreFields, Alike, IsSimple;
    SimilarExactly(payload, command);
    if IsSimple(payload) {
      SimpleFields(payload);
      var xs :| SameButNumbers(SpacedFields(payload), xs) && command == Join(xs);
      AlikeTokenize(SpacedFields(payload), xs);
      AlikeReadable(SpacedFields(payload), xs, probe);
    }
  }

  /**
    A command that the rule of a payload matches is readable exactly when the payload is, and then
    has as many words.
   */
  lemma RuleMatchesAlike(lib: Library, payload: string, command: string)
    requires Faithful(lib) && lib.compiles(SimilarText(payload))
    requires Runes(command).Some? && lib.matches(SimilarText(payload), command)
    ensures Readable(command, lib.probe) <==> Readable(payload, lib.probe)
    ensures Tokenize(payload).Ok? ==> Tokenize(command).Ok? && |Tokenize(payload).value| == |Tokenize(command).value|
  {
    hide PatternMatches, IsPattern, SimilarText, Tokenize, Readable, Runes;
    SimilarIsPattern(payload);
    MatchIsRead(payload, command, lib.probe);
  }

  lemma RuleMatchesSimilar(lib: Library, payload: string, command: string)
    requires Faithful(lib) && lib.compiles(SimilarText(payload)) && Runes(command).Some?
    ensures lib.matches(SimilarText(payload), command) <==> IsSimilar(payload, command)
  {
    hide PatternMatches, IsPattern, SimilarText, IsSimilar, Runes;
    SimilarIsPattern(payload);
    SimilarExactly(payload, command);
  }

  lemma UnreadableText(command: string, probe: Probe)
    requires Runes(command).None?
    ensures !Readable(command, probe)
  {
    hide Runes, IsClean;
    if TlsRedirect(command, probe).Some? {
      var n := |command| - |RedirectSuffix|;
      ShellJoining.CleanTokenize(command[..n]);
      RedirectClean();
      CleanJoins(command[..n], RedirectSuffix);
      assert command == command[..n] + RedirectSuffix;
      CleanIsText(command);
    }
    assert Words(command, probe).None?;
    assert command in Texts(command);
  }

  lemma RedirectClean()
    ensures IsClean(RedirectSuffix)
  {
    PrintableIsClean(RedirectSuffix);
  }

  lemma CleanIsText(s: string)
    requires IsClean(s)
    ensures Runes(s).Some?
  {
  }

  /**
    Adding the rule of a payload to a target: it allows what is similar to the payload and no deny rule
    stops, if the payload's views can be read, and changes nothing otherwise.
   */
  lemma SimilarRuleEffect(lib: Library, config: Config, temporary: seq<string>, payload: string, command: string)
    requires Faithful(lib) && lib.compiles(SimilarText(payload))
    ensures Judge(lib, config, temporary + [SimilarText(payload)], command) ==
      if Runes(command).Some? && IsSimilar(payload, command) && Readable(payload, lib.probe)
         && !Denied(lib, config, command)
      then Allow else Judge(lib, config, temporary, command)
  {
    hide SimilarText, IsSimilar, Faithful, Readable, Denied, Runes, Allowed;
    if Runes(command).None? {
      UnreadableText(command, lib.probe);
    } else {
      RuleMatchesSimilar(lib, payload, command);
      if lib.matches(SimilarText(payload), command) {
        RuleMatchesAlike(lib, payload, command);
      }
      AllowedAlso(lib, config, temporary, SimilarText(payload), command);
    }
  }

  lemma AllowedAlso(lib: Library, config: Config, temporary: seq<string>, rule: string, command: string)
    ensures Allowed(lib, config, temporary + [rule], command) <==>
      lib.matches(rule, command) || Allowed(lib, config, temporary, command)
  {
    hide Views, ViewAllowed;
    var rules := temporary + [rule];
    assert rules[|temporary|] == rule;
    assert forall i | 0 <= i < |temporary| :: rules[i] == temporary[i];
  }

  /** After its rule is added, a payload that can be read and is not denied is allowed. */
  lemma SimilarRuleAllowsPayload(lib: Library, config: Config, temporary: seq<string>, payload: string)
    requires Faithful(lib) && lib.compiles(SimilarText(payload)) && Readable(payload, lib.probe)
    requires !Denied(lib, config, payload)
    ensures Judge(lib, config, temporary + [SimilarText(payload)], payload) == Allow
  {
    hide Readable, Denied, PatternMatches, IsSimilar, SimilarText, Runes, Faithful;
    SimilarExactly(payload, payload);
    SimilarRuleEffect(lib, config, temporary, payload, payload);
    SimilarMatchesItself(payload);
    if Runes(payload).None? {
      UnreadableText(payload, lib.probe);
    }
  }
}
