/** SimilarPattern of internal/approval/approval.go, and the small pattern language it writes. */
module SimilarPattern {
  import opened Ascii
  import opened ShellWords
  import ShellTokenizer
  import Strings
  import Utf8

  // ----- Patterns --------------------------------------------------------------------------------------

  /** One byte, one character that is no newline, or one or more bytes between two. */
  datatype Element = Byte(c: char) | Any | Several(low: char, high: char)

  predicate IsMeta(c: char) {
    || c == '\\' || c == '.' || c == '+' || c == '*' || c == '?' || c == '(' || c == ')' || c == '|' || c == '['
    || c == ']' || c == '{' || c == '}' || c == '^' || c == '$'
  }

  function ElementText(e: Element): string {
    match e
    case Byte(c) => if IsMeta(c) then ['\\', c] else [c]
    case Any => "."
    case Several(low, high) => ['[', low, '-', high, ']', '+']
  }

  function ElementsText(es: seq<Element>): string {
    if es == [] then "" else ElementText(es[0]) + ElementsText(es[1..])
  }

  /** The text of an anchored pattern. */
  function PatternText(es: seq<Element>): string {
    "^" + ElementsText(es) + "$"
  }

  /**
    What follows the ^ of a pattern, as a regular expression reads it: a byte with a meaning stands for
    itself only after a backslash, and a dot without one for any character.
   */
  function ReadElements(s: string): Option<seq<Element>> {
    if s == "$" then Some([])
    else if |s| < 2 then None
    else if s[0] == '\\' then
      if s[1] in {'\\', '.', '+', '*', '?', '(', ')', '|', '[', ']', '{', '}', '^', '$'} then
        WithFirst(Byte(s[1]), ReadElements(s[2..]))
      else None
    else if s[0] == '.' then WithFirst(Any, ReadElements(s[1..]))
    else if s[0] == '[' then
      if |s| >= 6 && s[2] == '-' && s[4] == ']' && s[5] == '+' then
        WithFirst(Several(s[1], s[3]), ReadElements(s[6..]))
      else None
    else if s[0] in {'+', '*', '?', '(', ')', '|', ']', '{', '}', '^', '$'} then None
    else WithFirst(Byte(s[0]), ReadElements(s[1..]))
  }

  function WithFirst(e: Element, rest: Option<seq<Element>>): Option<seq<Element>> {
    if rest.None? then None else Some([e] + rest.value)
  }

  /** Quoting loses nothing: a pattern's text is read as its elements. */
  lemma {:induction false} PatternRoundTrip(es: seq<Element>)
    ensures ReadElements(ElementsText(es) + "$") == Some(es)
    decreases |es|
  {
    hide ElementText;
    if es != [] {
      var e, rest := es[0], ElementsText(es[1..]) + "$";
      var s := ElementsText(es) + "$";
      PatternRoundTrip(es[1..]);
      assert s == ElementText(e) + rest;
      assert rest != "";
      assert es == [e] + es[1..];
      ReadOne(e, rest);
    }
  }

  lemma ReadOne(e: Element, rest: string)
    requires rest != ""
    ensures ReadElements(ElementText(e) + rest) == WithFirst(e, ReadElements(rest))
  {
  }

  predicate AllDigits(s: string) {
    s != "" && forall i | 0 <= i < |s| :: IsDigit(s[i])
  }

  predicate AllBetween(s: string, low: char, high: char) {
    forall i | 0 <= i < |s| :: low <= s[i] <= high
  }

  /** The texts that elements match, from the first byte to the last. */
  ghost predicate Matches(es: seq<Element>, s: string) {
    if es == [] then s == ""
    else
      match es[0]
      case Byte(c) => s != "" && s[0] == c && Matches(es[1..], s[1..])
      case Any => s != "" && s[0] != '\n' && Matches(es[1..], s[Strings.RuneLength(s)..])
      case Several(low, high) =>
        exists k | 1 <= k <= |s| :: AllBetween(s[..k], low, high) && Matches(es[1..], s[k..])
  }

  /** A pattern from its ^ to its $. */
  predicate IsPattern(pattern: string) {
    pattern != "" && pattern[0] == '^' && ReadElements(pattern[1..]).Some?
  }

  /** The texts that a pattern matches, by its own text. */
  ghost predicate PatternMatches(pattern: string, s: string) {
    IsPattern(pattern) && Matches(ReadElements(pattern[1..]).value, s)
  }

  lemma PatternIsRead(es: seq<Element>, s: string)
    ensures IsPattern(PatternText(es))
    ensures PatternMatches(PatternText(es), s) <==> Matches(es, s)
  {
    hide Matches, ElementsText, ReadElements;
    PatternRoundTrip(es);
    assert PatternText(es)[1..] == ElementsText(es) + "$";
  }

  // ----- The pattern of a payload --------------------------------------------------------------------------

  function Literal(s: string): seq<Element> {
    seq(|s|, i requires 0 <= i < |s| => Byte(s[i]))
  }

  /** strings.Fields, on text whose only white space is the ASCII space. */
  function SpacedFields(s: string): seq<string> {
    if s == "" then []
    else if s[0] == ' ' then SpacedFields(s[1..])
    else var n := FieldLength(s); [s[..n]] + SpacedFields(s[n..])
  }

  function FieldLength(s: string): (n: nat)
    ensures n <= |s| && (s != "" && s[0] != ' ' ==> n > 0)
    ensures ' ' !in s[..n]
  {
    if s == "" || s[0] == ' ' then 0
    else
      var n := FieldLength(s[1..]);
      assert s[..n + 1] == [s[0]] + s[1..][..n];
      n + 1
  }

  lemma {:induction false} FieldBytes(s: string, n: nat)
    requires n <= |s| && ' ' !in s[..n]
    ensures FieldLength(s) == n + FieldLength(s[n..])
    decreases n
  {
    if n > 0 {
      assert s[0] in s[..n] && forall i | 0 <= i < n - 1 :: s[1..][i] == s[..n][i + 1];
      FieldBytes(s[1..], n - 1);
      assert s[1..][n - 1..] == s[n..];
    }
  }

  /** The first character of a clean text is one space or has none. */
  lemma CleanRune(s: string)
    requires s != "" && Utf8.IsClean(s)
    ensures var n := Strings.RuneLength(s);
      Utf8.IsClean(s[n..]) && (Strings.StartsSpace(s) <==> s[0] == ' ') && (s[0] == ' ' ==> n == 1)
      && (s[0] != ' ' ==> ' ' !in s[..n])
  {
    hide Utf8.IsClean;
    Utf8.CleanFirst(s);
    var n := Strings.RuneLength(s);
    forall i | 0 < i < n
      ensures s[i] != ' '
    {
      Utf8.LaterBytes(s, i);
    }
  }

  lemma {:induction false} CleanWord(s: string)
    requires Utf8.IsClean(s)
    ensures Strings.WordLength(s) == FieldLength(s) && Utf8.IsClean(s[FieldLength(s)..])
    decreases |s|
  {
    hide Utf8.IsClean, Strings.RuneLength, Strings.StartsSpace;
    assert s[0..] == s;
    if s != "" {
      CleanRune(s);
      var n := Strings.RuneLength(s);
      if s[0] != ' ' {
        FieldBytes(s, n);
        CleanWord(s[n..]);
        assert s[n..][FieldLength(s[n..])..] == s[FieldLength(s)..];
      }
    }
  }

  lemma {:induction false} CleanFields(s: string)
    requires Utf8.IsClean(s)
    ensures Strings.Fields(s) == SpacedFields(s)
    decreases |s|
  {
    hide Utf8.IsClean, Strings.RuneLength, Strings.StartsSpace, FieldLength, Strings.WordLength;
    if s != "" {
      CleanRune(s);
      CleanWord(s);
      CleanFields(if s[0] == ' ' then s[1..] else s[FieldLength(s)..]);
    }
  }

  /** What the tokenizer accepts has no white space but the ASCII space. */
  lemma AcceptedFields(s: string)
    requires Tokenize(s).Ok?
    ensures Strings.Fields(s) == SpacedFields(s)
  {
    hide SpacedFields, Strings.Fields;
    CleanFields(s);
  }

  /** strings.Join with single spaces. */
  function Join(fields: seq<string>): string {
    if fields == [] then "" else if |fields| == 1 then fields[0] else fields[0] + " " + Join(fields[1..])
  }

  /** Only simple commands are generalised: readable, without quotes, with single spaces. */
  predicate IsSimple(payload: string) {
    && Tokenize(payload).Ok? && '\'' !in payload && '"' !in payload
    && SpacedFields(payload) != [] && Join(SpacedFields(payload)) == payload
  }

  function Part(field: string, first: bool): seq<Element> {
    if !first && AllDigits(field) then [Several('0', '9')] else Literal(field)
  }

  function Parts(fields: seq<string>, first: bool): seq<Element> {
    if fields == [] then []
    else if |fields| == 1 then Part(fields[0], first)
    else Part(fields[0], first) + [Byte(' ')] + Parts(fields[1..], false)
  }

  function SimilarElements(payload: string): seq<Element> {
    if IsSimple(payload) then Parts(SpacedFields(payload), true) else Literal(payload)
  }

  function SimilarText(payload: string): string {
    PatternText(SimilarElements(payload))
  }

  // ----- The text of the pattern ------------------------------------------------------------------------

  /** regexp.QuoteMeta */
  function QuoteMeta(s: string): string {
    ElementsText(Literal(s))
  }

  function PartText(field: string, first: bool): string {
    if !first && AllDigits(field) then "[0-9]+" else QuoteMeta(field)
  }

  lemma {:induction false} TextJoins(a: seq<Element>, b: seq<Element>)
    ensures ElementsText(a + b) == ElementsText(a) + ElementsText(b)
    decreases |a|
  {
    hide ElementText;
    if a == [] {
      assert a + b == b;
    } else {
      TextJoins(a[1..], b);
      assert (a + b)[1..] == a[1..] + b && (a + b)[0] == a[0];
      assert ElementText(a[0]) + (ElementsText(a[1..]) + ElementsText(b))
        == ElementText(a[0]) + ElementsText(a[1..]) + ElementsText(b);
    }
  }

  lemma PartTexts(field: string, first: bool)
    ensures ElementsText(Part(field, first)) == PartText(field, first)
  {
  }

  lemma SpaceText()
    ensures ElementsText([Byte(' ')]) == " "
  {
  }

  /** Joining the texts of the parts gives the text of them all. */
  lemma {:induction false} JoinedParts(fields: seq<string>, texts: seq<string>, first: bool)
    requires |texts| == |fields| && forall i | 0 <= i < |fields| :: texts[i] == PartText(fields[i], first && i == 0)
    ensures Join(texts) == ElementsText(Parts(fields, first))
    decreases |fields|
  {
    hide Part, PartText, ElementsText;
    if fields == [] {
      NoText();
    } else {
      PartTexts(fields[0], first);
      if |fields| > 1 {
        JoinedParts(fields[1..], texts[1..], false);
        var rest := Parts(fields[1..], false);
        TextJoins(Part(fields[0], first) + [Byte(' ')], rest);
        TextJoins(Part(fields[0], first), [Byte(' ')]);
        SpaceText();
      }
    }
  }

  lemma NoText()
    ensures ElementsText([]) == ""
  {
  }

  lemma PartIs(field: string, first: bool)
    ensures PartText(field, first) == if !first && AllDigits(field) then "[0-9]+" else QuoteMeta(field)
  {
  }

  // ----- What the pattern matches ----------------------------------------------------------------------

  /** Field by field the same, but for numbers. */
  predicate Alike(a: seq<string>, b: seq<string>) {
    |a| == |b| && forall i | 0 <= i < |a| :: a[i] == b[i] || (AllDigits(a[i]) && AllDigits(b[i]))
  }

  /** Alike, with the same first field. */
  predicate SameButNumbers(a: seq<string>, b: seq<string>) {
    Alike(a, b) && (a != [] ==> a[0] == b[0])
  }

  lemma {:induction false} MatchesLiteral(x: string, es: seq<Element>, s: string)
    ensures Matches(Literal(x) + es, s) <==> |x| <= |s| && s[..|x|] == x && Matches(es, s[|x|..])
    decreases |x|
  {
    if x == "" {
      assert Literal(x) + es == es && s[0..] == s;
    } else {
      var all := Literal(x) + es;
      assert all[0] == Byte(x[0]) && all[1..] == Literal(x[1..]) + es;
      if s != "" {
        MatchesLiteral(x[1..], es, s[1..]);
        if |x| <= |s| {
          assert s[1..][|x| - 1..] == s[|x|..];
          assert s[..|x|] == [s[0]] + s[1..][..|x| - 1];
          assert x == [x[0]] + x[1..];
        }
      }
    }
  }

  lemma MatchesNumber(es: seq<Element>, s: string)
    ensures Matches([Several('0', '9')] + es, s) <==>
      exists k | 1 <= k <= |s| :: AllDigits(s[..k]) && Matches(es, s[k..])
  {
  }

  /** A field that a part of the pattern matches. */
  predicate PartMatches(field: string, first: bool, x: string) {
    if !first && AllDigits(field) then AllDigits(x) else x == field
  }

  lemma MatchesPart(field: string, first: bool, es: seq<Element>, s: string)
    ensures Matches(Part(field, first) + es, s) <==>
      exists k | 0 <= k <= |s| :: PartMatches(field, first, s[..k]) && Matches(es, s[k..])
  {
    hide Matches, AllDigits;
    if !first && AllDigits(field) {
      MatchesNumber(es, s);
      assert !AllDigits(s[..0]) by {
        NotDigits(s);
      }
    } else {
      MatchesLiteral(field, es, s);
      if |field| <= |s| && s[..|field|] == field && Matches(es, s[|field|..]) {
        assert PartMatches(field, first, s[..|field|]);
      }
    }
  }

  lemma NotDigits(s: string)
    ensures !AllDigits(s[..0])
  {
  }

  /** The fields of a matched text, one by one. */
  predicate FieldsMatch(fields: seq<string>, first: bool, xs: seq<string>) {
    |fields| == |xs| && forall i | 0 <= i < |fields| :: PartMatches(fields[i], first && i == 0, xs[i])
  }

  lemma MatchesSpace(es: seq<Element>, s: string)
    ensures Matches([Byte(' ')] + es, s) <==> s != "" && s[0] == ' ' && Matches(es, s[1..])
  {
  }

  lemma MatchesNothing(s: string)
    ensures Matches([], s) <==> s == ""
  {
  }

  lemma {:induction false} PartsMatchFrom(fields: seq<string>, first: bool, xs: seq<string>)
    requires fields != [] && FieldsMatch(fields, first, xs)
    ensures Matches(Parts(fields, first), Join(xs))
    decreases |fields|
  {
    hide Matches, PartMatches, Part;
    var s := Join(xs);
    var x := xs[0];
    assert s[..|x|] == x;
    if |fields| == 1 {
      MatchesNothing("");
      MatchesPart(fields[0], first, [], s);
      assert Part(fields[0], first) + [] == Part(fields[0], first);
      assert s[|x|..] == "";
    } else {
      var rest := Parts(fields[1..], false);
      PartsMatchFrom(fields[1..], false, xs[1..]);
      assert s[|x|..] == " " + Join(xs[1..]) && s[|x|..][1..] == Join(xs[1..]);
      MatchesSpace(rest, s[|x|..]);
      MatchesPart(fields[0], first, [Byte(' ')] + rest, s);
      assert Part(fields[0], first) + ([Byte(' ')] + rest) == Parts(fields, first);
    }
  }

  lemma {:induction false} PartsMatchTo(fields: seq<string>, first: bool, s: string) returns (xs: seq<string>)
    requires fields != [] && Matches(Parts(fields, first), s)
    ensures FieldsMatch(fields, first, xs) && s == Join(xs)
    decreases |fields|
  {
    hide Matches, PartMatches, Part;
    if |fields| == 1 {
      assert Part(fields[0], first) + [] == Part(fields[0], first);
      MatchesPart(fields[0], first, [], s);
      var k :| 0 <= k <= |s| && PartMatches(fields[0], first, s[..k]) && Matches([], s[k..]);
      MatchesNothing(s[k..]);
      assert s[..k] == s;
      xs := [s];
    } else {
      var rest := Parts(fields[1..], false);
      assert Part(fields[0], first) + ([Byte(' ')] + rest) == Parts(fields, first);
      MatchesPart(fields[0], first, [Byte(' ')] + rest, s);
      var k :| 0 <= k <= |s| && PartMatches(fields[0], first, s[..k]) && Matches([Byte(' ')] + rest, s[k..]);
      MatchesSpace(rest, s[k..]);
      var ys := PartsMatchTo(fields[1..], false, s[k..][1..]);
      xs := [s[..k]] + ys;
      assert xs[1..] == ys;
      assert s == s[..k] + " " + s[k..][1..];
    }
  }

  lemma FieldsMatchAlike(fields: seq<string>, xs: seq<string>)
    ensures FieldsMatch(fields, true, xs) <==> SameButNumbers(fields, xs)
  {
  }

  /** The same but for standalone numbers after the first word, and only if the payload is simple. */
  ghost predicate IsSimilar(payload: string, s: string) {
    if IsSimple(payload) then exists xs :: SameButNumbers(SpacedFields(payload), xs) && s == Join(xs) else s == payload
  }

  lemma ElementsExactly(payload: string, s: string)
    ensures Matches(SimilarElements(payload), s) <==> IsSimilar(payload, s)
  {
    hide Matches, Tokenize, Parts, SpacedFields, Join, SameButNumbers, Literal;
    if IsSimple(payload) {
      var fields := SpacedFields(payload);
      if Matches(Parts(fields, true), s) {
        var xs := PartsMatchTo(fields, true, s);
        FieldsMatchAlike(fields, xs);
      }
      if exists xs :: SameButNumbers(fields, xs) && s == Join(xs) {
        var xs :| SameButNumbers(fields, xs) && s == Join(xs);
        FieldsMatchAlike(fields, xs);
        PartsMatchFrom(fields, true, xs);
      }
    } else {
      MatchesLiteral(payload, [], s);
      assert Literal(payload) + [] == Literal(payload);
      if |payload| <= |s| {
        MatchesNothing(s[|payload|..]);
        assert s == s[..|payload|] + s[|payload|..];
      }
    }
  }

  /** The text of a payload's pattern, read as a regular expression, matches just what is similar to it. */
  lemma SimilarExactly(payload: string, s: string)
    ensures PatternMatches(SimilarText(payload), s) <==> IsSimilar(payload, s)
  {
    hide *;
    ElementsExactly(payload, s);
    PatternIsRead(SimilarElements(payload), s);
    TextIs(payload);
  }

  lemma TextIs(payload: string)
    ensures SimilarText(payload) == PatternText(SimilarElements(payload))
  {
  }

  /** The pattern matches the payload it was made from. */
  lemma SimilarMatchesItself(payload: string)
    ensures PatternMatches(SimilarText(payload), payload)
  {
    hide PatternMatches, SimilarText, SpacedFields, Join, Tokenize;
    SimilarExactly(payload, payload);
    if IsSimple(payload) {
      assert SameButNumbers(SpacedFields(payload), SpacedFields(payload));
    }
  }

  // ----- The source's loop ------------------------------------------------------------------------------

  method SimilarPattern(payload: string) returns (pattern: string)
    ensures pattern == SimilarText(payload)
    ensures forall s :: PatternMatches(pattern, s) <==> IsSimilar(payload, s)
  {
    hide PatternMatches, IsSimilar, ElementsText, Tokenize, SpacedFields, Join, Parts, PartText, Literal, AllDigits;
    forall s {
      SimilarExactly(payload, s);
    }
    var r := ShellTokenizer.TokenizeShell(payload);
    if r.Err? || '\'' in payload || '"' in payload {
      return "^" + QuoteMeta(payload) + "$";
    }
    AcceptedFields(payload);
    var fields := Strings.Fields(payload);
    if |fields| == 0 || Join(fields) != payload {
      return "^" + QuoteMeta(payload) + "$";
    }
    var parts := [];
    for i := 0 to |fields|
      invariant |parts| == i && forall k | 0 <= k < i :: parts[k] == PartText(fields[k], k == 0)
    {
      var part := if i > 0 && AllDigits(fields[i]) then "[0-9]+" else QuoteMeta(fields[i]);
      assert part == PartText(fields[i], i == 0) by {
        PartIs(fields[i], i == 0);
      }
      parts := parts + [part];
    }
    JoinedParts(fields, parts, true);
    pattern := "^" + Join(parts) + "$";
  }
}
