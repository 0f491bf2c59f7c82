/** The three-way policy of internal/policy/policy.go. */
module PolicyEngine {
  import opened Ascii
  import W = ShellWords
  import opened ShellViews
  import ShellRefinement
  import ShellWrappers
  import Posix = PosixShell

  datatype Decision = Allow | Ask | Deny

  datatype Source = Persistent | Target | Default

  datatype Verdict = Verdict(decision: Decision, rule: string, source: Source)

  datatype ValidatedRule = ValidatedRule(pattern: string, validator: string)

  datatype Config = Config(allow: seq<string>, validatedAllow: seq<ValidatedRule>, deny: seq<string>)

  /** Go's regular expressions and the named argument validators. */
  datatype Library = Library(
    compiles: string -> bool,
    matches: (string, string) -> bool,
    isValidator: string -> bool,
    validates: (string, seq<W.Word>) -> bool,
    probe: Probe)

  // ----- What a policy says ----------------------------------------------------------------------------

  predicate SomeMatches(lib: Library, rules: seq<string>, text: string) {
    exists i | 0 <= i < |rules| :: lib.matches(rules[i], text)
  }

  /** The rule matches the view, and its validator accepts the view's words. */
  predicate Validates(lib: Library, rule: ValidatedRule, view: View) {
    lib.matches(rule.pattern, view.text) && lib.validates(rule.validator, view.words)
  }

  predicate SomeValidates(lib: Library, rules: seq<ValidatedRule>, view: View) {
    exists i | 0 <= i < |rules| :: Validates(lib, rules[i], view)
  }

  predicate Denied(lib: Library, config: Config, command: string) {
    exists i | 0 <= i < |Views(command, lib.probe)| :: SomeMatches(lib, config.deny, Views(command, lib.probe)[i].text)
  }

  predicate ViewAllowed(lib: Library, config: Config, view: View) {
    SomeMatches(lib, config.allow, view.text) || SomeValidates(lib, config.validatedAllow, view)
  }

  predicate Allowed(lib: Library, config: Config, temporary: seq<string>, command: string) {
    || SomeMatches(lib, temporary, command)
    || exists i | 0 <= i < |Views(command, lib.probe)| :: ViewAllowed(lib, config, Views(command, lib.probe)[i])
  }

  /** The decision a policy and the temporary rules of a target make. */
  function Judge(lib: Library, config: Config, temporary: seq<string>, command: string): Decision {
    if Denied(lib, config, command) then Deny
    else if Readable(command, lib.probe) && Allowed(lib, config, temporary, command) then Allow
    else Ask
  }

  /** The first rule that matches. */
  function FirstMatch(lib: Library, rules: seq<string>, text: string): (r: Option<string>)
    ensures r.Some? <==> SomeMatches(lib, rules, text)
    ensures r.Some? ==> exists i | 0 <= i < |rules| ::
      rules[i] == r.value && lib.matches(rules[i], text) && forall k | 0 <= k < i :: !lib.matches(rules[k], text)
  {
    if rules == [] then None
    else if lib.matches(rules[0], text) then Some(rules[0])
    else
      var r := FirstMatch(lib, rules[1..], text);
      assert forall i | 1 <= i < |rules| :: rules[i] == rules[1..][i - 1];
      r
  }

  /** A rule of the policy, or one of the target, allows this. */
  ghost predicate IsAllowing(lib: Library, config: Config, temporary: seq<string>, command: string) {
    || (exists rule | rule in temporary :: lib.matches(rule, command))
    || (exists text, rule | text in Texts(command) && rule in config.allow :: lib.matches(rule, text))
    || (exists text, rule | text in Texts(command) && rule in config.validatedAllow ::
          && lib.matches(rule.pattern, text) && Words(text, lib.probe).Some?
          && lib.validates(rule.validator, Words(text, lib.probe).value))
  }

  /**
    DENY if and only if some deny rule matches some view; ALLOW if and only if none does, the command is
    readable, and a rule of the target matches the command or a rule of the policy allows some view.
   */
  lemma JudgeExactly(lib: Library, config: Config, temporary: seq<string>, command: string)
    ensures Judge(lib, config, temporary, command) == Deny <==>
      exists text, rule | text in Texts(command) && rule in config.deny :: lib.matches(rule, text)
    ensures Judge(lib, config, temporary, command) == Allow <==>
      && !(exists text, rule | text in Texts(command) && rule in config.deny :: lib.matches(rule, text))
      && Readable(command, lib.probe) && IsAllowing(lib, config, temporary, command)
  {
    hide Texts, Readable, ViewOf, Allowed, IsAllowing;
    DeniedExactly(lib, config, command);
    if Readable(command, lib.probe) {
      AllowedExactly(lib, config, temporary, command);
    }
  }

  lemma MatchesExactly(lib: Library, rules: seq<string>, text: string)
    ensures SomeMatches(lib, rules, text) <==> exists rule | rule in rules :: lib.matches(rule, text)
  {
  }

  lemma DeniedExactly(lib: Library, config: Config, command: string)
    ensures Denied(lib, config, command) <==>
      exists text, rule | text in Texts(command) && rule in config.deny :: lib.matches(rule, text)
  {
    hide Texts, Words;
    forall text {
      MatchesExactly(lib, config.deny, text);
    }
    var texts, views := Texts(command), Views(command, lib.probe);
    forall text | text in texts
      ensures exists i | 0 <= i < |views| :: views[i].text == text
    {
      var i :| 0 <= i < |texts| && texts[i] == text;
      assert views[i].text == text;
    }
  }

  lemma AllowedExactly(lib: Library, config: Config, temporary: seq<string>, command: string)
    requires Readable(command, lib.probe)
    ensures Allowed(lib, config, temporary, command) <==> IsAllowing(lib, config, temporary, command)
  {
    hide Texts, Words, IsWrapper;
    forall text {
      MatchesExactly(lib, config.allow, text);
    }
    MatchesExactly(lib, temporary, command);
    var texts, views := Texts(command), Views(command, lib.probe);
    forall text | text in texts
      ensures exists i | 0 <= i < |views| :: views[i] == View(text, Words(text, lib.probe).value)
    {
      var i :| 0 <= i < |texts| && texts[i] == text;
      assert views[i] == ViewOf(text, lib.probe);
    }
  }

  // ----- Properties of every policy ----------------------------------------------------------------------

  predicate Within<T(==)>(a: seq<T>, b: seq<T>) {
    forall x | x in a :: x in b
  }

  /** The second policy has all allow rules of the first, and the same deny rules. */
  predicate Widens(config: Config, wider: Config) {
    && Within(config.allow, wider.allow) && Within(config.validatedAllow, wider.validatedAllow)
    && config.deny == wider.deny
  }

  lemma MatchesWithin(lib: Library, a: seq<string>, b: seq<string>, text: string)
    requires Within(a, b) && SomeMatches(lib, a, text)
    ensures SomeMatches(lib, b, text)
  {
    var i :| 0 <= i < |a| && lib.matches(a[i], text);
    assert a[i] in b;
  }

  lemma ValidatesWithin(lib: Library, a: seq<ValidatedRule>, b: seq<ValidatedRule>, view: View)
    requires Within(a, b) && SomeValidates(lib, a, view)
    ensures SomeValidates(lib, b, view)
  {
    var i :| 0 <= i < |a| && Validates(lib, a[i], view);
    assert a[i] in b;
  }

  lemma AllowedWidens(lib: Library, config: Config, wider: Config,
                      temporary: seq<string>, more: seq<string>, command: string)
    requires Widens(config, wider) && Within(temporary, more) && Allowed(lib, config, temporary, command)
    ensures Allowed(lib, wider, more, command)
  {
    hide SomeMatches, SomeValidates, Views, Within;
    if SomeMatches(lib, temporary, command) {
      MatchesWithin(lib, temporary, more, command);
    } else {
      var views := Views(command, lib.probe);
      var i :| 0 <= i < |views| && ViewAllowed(lib, config, views[i]);
      if SomeMatches(lib, config.allow, views[i].text) {
        MatchesWithin(lib, config.allow, wider.allow, views[i].text);
      } else {
        ValidatesWithin(lib, config.validatedAllow, wider.validatedAllow, views[i]);
      }
      assert ViewAllowed(lib, wider, views[i]);
    }
  }

  /** Further allow rules, persistent or of the target, turn some ASK into ALLOW and do nothing else. */
  lemma WideningOnlyAllows(lib: Library, config: Config, wider: Config,
                           temporary: seq<string>, more: seq<string>, command: string)
    requires Widens(config, wider) && Within(temporary, more)
    ensures var before, after := Judge(lib, config, temporary, command), Judge(lib, wider, more, command);
      before == after || (before == Ask && after == Allow)
  {
    hide Readable, Allowed, Views, Within, SomeMatches;
    if Allowed(lib, config, temporary, command) {
      AllowedWidens(lib, config, wider, temporary, more, command);
    }
    SameDeny(lib, config, wider, command);
  }

  lemma SameDeny(lib: Library, config: Config, wider: Config, command: string)
    requires config.deny == wider.deny
    ensures Denied(lib, config, command) == Denied(lib, wider, command)
  {
  }

  /**
    No policy whatever allows a command in whose innermost text a shell still reads runagent or podman
    exec, with or without the redirection that is let through.
   */
  lemma LeftoverNeverAllowed(lib: Library, config: Config, temporary: seq<string>, command: string, words: seq<string>)
    requires var texts := Texts(command); ShellWrappers.ShellReads(texts[|texts| - 1], words)
    requires ["runagent"] <= words || ["podman", "exec"] <= words
    ensures Judge(lib, config, temporary, command) != Allow
  {
    hide Readable, ShellWrappers.ShellReads, Allowed, Denied, Texts;
    ShellWrappers.ReadableExactly(command, lib.probe);
  }

  /** What is allowed means to a POSIX shell just the words that were judged, or is a certificate probe. */
  lemma AllowedIsPlain(lib: Library, config: Config, temporary: seq<string>, command: string, text: string)
    requires Judge(lib, config, temporary, command) == Allow && text in Texts(command)
    ensures TlsRedirect(text, lib.probe).Some?
      || Posix.Split(text) == Some(ShellRefinement.Values(ViewOf(text, lib.probe).words))
  {
    hide Posix.Split, Allowed, Denied, Texts, TlsRedirect, Words, ShellRefinement.Values;
    ShellWrappers.ReadableWords(text, lib.probe);
  }

  lemma FirstView(command: string, probe: Probe)
    ensures |Views(command, probe)| > 0 && Views(command, probe)[0].text == command
  {
  }

  // ----- Targets ---------------------------------------------------------------------------------------

  datatype Event = Added(target: string, pattern: string) | Detached(target: string)

  /** The rules added for a target since it was last detached. */
  function Since(history: seq<Event>, target: string): seq<string> {
    if history == [] then []
    else
      var last, before := history[|history| - 1], history[..|history| - 1];
      if last.target != target then Since(before, target)
      else if last.Detached? then []
      else Since(before, target) + [last.pattern]
  }

  lemma SinceOther(history: seq<Event>, e: Event, target: string)
    ensures Since(history + [e], target) ==
      if e.target != target then Since(history, target)
      else if e.Detached? then []
      else Since(history, target) + [e.pattern]
  {
  }

  /** Nothing that is done for other targets, and nothing before the last detach, has any effect. */
  lemma {:induction false} SinceDetached(before: seq<Event>, after: seq<Event>, target: string)
    ensures Since(before + [Detached(target)] + after, target) == Since(after, target)
    decreases |after|
  {
    if after == [] {
      assert before + [Detached(target)] + after == before + [Detached(target)];
      SinceOther(before, Detached(target), target);
    } else {
      var n := |after| - 1;
      var whole := before + [Detached(target)] + after;
      assert whole == before + [Detached(target)] + after[..n] + [after[n]];
      SinceOther(before + [Detached(target)] + after[..n], after[n], target);
      SinceDetached(before, after[..n], target);
    }
  }

  class Engine {
    const lib: Library
    const config: Config
    var temporary: map<string, seq<string>>
    ghost var history: seq<Event>

    ghost predicate Valid()
      reads this
    {
      forall target :: Rules(target) == Since(history, target)
    }

    function Rules(target: string): seq<string>
      reads this
    {
      if target in temporary then temporary[target] else []
    }

    constructor (lib: Library, config: Config)
      ensures Valid() && this.lib == lib && this.config == config && history == []
    {
      this.lib, this.config, temporary, history := lib, config, map[], [];
    }

    /** compileRules, for one rule. */
    predicate Compiles(pattern: string) {
      pattern != "" && lib.compiles(pattern)
    }

    method AllowForTarget(target: string, pattern: string) returns (ok: bool)
      requires Valid()
      modifies this
      ensures Valid() && ok == (target != "" && pattern != "" && lib.compiles(pattern))
      ensures history == old(history) + (if ok then [Added(target, pattern)] else [])
    {
      ok := target != "" && Compiles(pattern);
      if ok {
        temporary := temporary[target := Rules(target) + [pattern]];
        forall t {
          SinceOther(history, Added(target, pattern), t);
        }
        history := history + [Added(target, pattern)];
      }
    }

    method DetachTarget(target: string)
      requires Valid()
      modifies this
      ensures Valid() && history == old(history) + [Detached(target)]
    {
      temporary := temporary - {target};
      forall t {
        SinceOther(history, Detached(target), t);
      }
      history := history + [Detached(target)];
    }

    /** Evaluate: deny rules on every view, then the target's rules, then the others view by view. */
    method Evaluate(target: string, command: string) returns (r: Verdict)
      requires Valid()
      ensures r.decision == Judge(lib, config, Since(history, target), command)
      ensures r.decision == Deny ==> r.source == Persistent && IsFirstDeny(r.rule, Views(command, lib.probe))
      ensures r.decision == Allow && r.source != Target ==>
        r.source == Persistent && IsFirstAllow(r.rule, Views(command, lib.probe))
      ensures r.decision == Ask ==> r == Verdict(Ask, "", Default)
      ensures r.source == Target <==> r.decision == Allow && SomeMatches(lib, Since(history, target), command)
      ensures r.source == Target ==> Some(r.rule) == FirstMatch(lib, Since(history, target), command)
    {
      hide Since, Readable, SomeMatches, SomeValidates, FirstMatch, IsFirstDeny, ViewAllowed, Views, IsFirstAllow;
      var views, ok := CommandViews(command, lib.probe);
      FirstView(command, lib.probe);
      var denied := DenyingRule(views);
      if denied.Some? {
        return Verdict(Deny, denied.value, Persistent);
      }
      if !ok {
        return Verdict(Ask, "", Default);
      }
      var rules := Rules(target);
      var temporaryRule := FirstRule(rules, views[0].text);
      if temporaryRule.Some? {
        return Verdict(Allow, temporaryRule.value, Target);
      }
      var allowing := AllowingRule(views);
      if allowing.Some? {
        return Verdict(Allow, allowing.value, Persistent);
      }
      r := Verdict(Ask, "", Default);
    }

    method DenyingRule(views: seq<View>) returns (r: Option<string>)
      ensures r.Some? <==> exists i | 0 <= i < |views| :: SomeMatches(lib, config.deny, views[i].text)
      ensures r.Some? ==> IsFirstDeny(r.value, views)
    {
      hide SomeMatches, FirstMatch;
      for i := 0 to |views|
        invariant forall k | 0 <= k < i :: !SomeMatches(lib, config.deny, views[k].text)
      {
        r := FirstRule(config.deny, views[i].text);
        if r.Some? {
          return;
        }
      }
      r := None;
    }

    method AllowingRule(views: seq<View>) returns (r: Option<string>)
      ensures r.Some? <==> exists i | 0 <= i < |views| :: ViewAllowed(lib, config, views[i])
      ensures r.Some? ==> IsFirstAllow(r.value, views)
    {
      hide SomeMatches, SomeValidates, FirstMatch, IsFirstValidated;
      for i := 0 to |views|
        invariant forall k | 0 <= k < i :: !ViewAllowed(lib, config, views[k])
      {
        r := FirstRule(config.allow, views[i].text);
        if r.Some? {
          assert ViewAllowed(lib, config, views[i]);
          return;
        }
        r := FirstValidated(views[i]);
        if r.Some? {
          assert ViewAllowed(lib, config, views[i]);
          return;
        }
      }
      r := None;
    }

    /**
      The rule for the first view that any allows: the first of the allow rules that matches it, or
      else the first of the validated rules that matches it and whose validator accepts its words.
     */
    ghost predicate IsFirstAllow(rule: string, views: seq<View>) {
      exists i | 0 <= i < |views| ::
        && (forall k | 0 <= k < i :: !ViewAllowed(lib, config, views[k]))
        && (if SomeMatches(lib, config.allow, views[i].text)
            then Some(rule) == FirstMatch(lib, config.allow, views[i].text)
            else IsFirstValidated(rule, views[i]))
    }

    ghost predicate IsFirstValidated(rule: string, view: View) {
      exists j | 0 <= j < |config.validatedAllow| ::
        && config.validatedAllow[j].pattern == rule && Validates(lib, config.validatedAllow[j], view)
        && forall k | 0 <= k < j :: !Validates(lib, config.validatedAllow[k], view)
    }

    /** The first deny rule that matches the first view that any of them matches. */
    ghost predicate IsFirstDeny(rule: string, views: seq<View>) {
      exists i | 0 <= i < |views| ::
        && Some(rule) == FirstMatch(lib, config.deny, views[i].text)
        && forall k | 0 <= k < i :: !SomeMatches(lib, config.deny, views[k].text)
    }

    method FirstRule(rules: seq<string>, text: string) returns (r: Option<string>)
      ensures r == FirstMatch(lib, rules, text)
    {
      assert rules[0..] == rules;
      for i := 0 to |rules|
        invariant FirstMatch(lib, rules, text) == FirstMatch(lib, rules[i..], text)
      {
        assert rules[i..][1..] == rules[i + 1..];
        if lib.matches(rules[i], text) {
          return Some(rules[i]);
        }
      }
      r := None;
    }

    method FirstValidated(view: View) returns (r: Option<string>)
      ensures r.Some? <==> SomeValidates(lib, config.validatedAllow, view)
      ensures r.Some? ==> IsFirstValidated(r.value, view)
    {
      var rules := config.validatedAllow;
      for i := 0 to |rules|
        invariant forall k | 0 <= k < i :: !Validates(lib, rules[k], view)
      {
        if Validates(lib, rules[i], view) {
          return Some(rules[i].pattern);
        }
      }
      r := None;
    }
  }
}
