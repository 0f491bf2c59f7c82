/**
  Writing scanned tokens as text again: quotes in literals doubled, tokens kept apart by spaces,
  and a parenthesis glued to the identifier it touched. Scanning that text shows the reader the
  same symbols.
 */
module SqlPrinting {
  import opened Ascii
  import opened SqlTokens
  import opened SqlScanner

  /** v with every quote doubled. */
  function Doubled(v: string): string {
    if v == "" then "" else (if v[0] == '\'' then "''" else [v[0]]) + Doubled(v[1..])
  }

  function PrintToken(t: Token): string {
    if t.kind == StringText then "'" + Doubled(t.value) + "'" else t.value
  }

  predicate GluesNext(ts: seq<Token>, i: nat)
    requires i < |ts|
  {
    i + 1 < |ts| && ts[i + 1].kind == LeftParen && Touches(ts, i + 1)
  }

  /** The tokens from number i on as text. */
  function Print(ts: seq<Token>, i: nat): string
    requires i <= |ts|
    decreases |ts| - i
  {
    if i == |ts| then "" else PrintToken(ts[i]) + (if GluesNext(ts, i) then "" else " ") + Print(ts, i + 1)
  }

  predicate All(v: string, p: char -> bool) {
    forall c | c in v :: p(c)
  }

  predicate IsNumberText(v: string) {
    v != "" && IsDigit(v[0]) && NumberSpan(v) == |v|
  }

  /** What the value of a scanned token can be. */
  predicate WellFormed(t: Token) {
    match t.kind
    case Identifier => t.value != "" && StartsWord(t.value[0]) && All(t.value, IsWordByte)
    case Number => IsNumberText(t.value)
    case StringText => '\\' !in t.value
    case Comma => t.value == ","
    case LeftParen => t.value == "("
    case RightParen => t.value == ")"
    case Star => t.value == "*"
    case Dot => t.value == "."
    case Comparison => t.value in {"=", "<", ">", "<=", ">=", "<>", "!="}
    case Pattern => t.value != "" && t.value[0] == '%' && All(t.value, IsPatternByte)
  }

  predicate AllWellFormed(ts: seq<Token>) {
    forall i | 0 <= i < |ts| :: WellFormed(ts[i])
  }

  // ----- Scanned tokens are well formed -------------------------------------------------------------

  lemma {:induction false} SpanAll(s: string, p: char -> bool)
    ensures All(s[..Span(s, p)], p)
  {
    if s != "" && p(s[0]) {
      SpanAll(s[1..], p);
      assert s[..Span(s, p)] == [s[0]] + s[1..][..Span(s[1..], p)];
    }
  }

  /** Where p holds throughout v and fails right after it, the span is v. */
  lemma {:induction false} SpanExact(v: string, rest: string, p: char -> bool)
    requires All(v, p) && (rest != "" ==> !p(rest[0]))
    ensures Span(v + rest, p) == |v|
  {
    if v == "" {
      assert v + rest == rest;
    } else {
      assert (v + rest)[1..] == v[1..] + rest;
      assert All(v[1..], p) by {
        assert forall c | c in v[1..] :: c in v;
      }
      SpanExact(v[1..], rest, p);
    }
  }

  lemma {:induction false} SpanRest(s: string, p: char -> bool)
    ensures var n := Span(s, p); n < |s| ==> !p(s[n])
  {
    if s != "" && p(s[0]) {
      SpanRest(s[1..], p);
    }
  }

  /** The span of a text that goes on with a byte that ends numbers. */
  lemma NumberExact(v: string, rest: string)
    requires IsNumberText(v) && (rest != "" ==> !IsDigit(rest[0]) && rest[0] != '.')
    ensures NumberSpan(v + rest) == |v|
  {
    var whole := Span(v, IsDigit);
    SpanAll(v, IsDigit);
    if whole == |v| {
      assert v[..whole] == v;
      SpanExact(v, rest, IsDigit);
    } else {
      var part := v[whole + 1..];
      SpanRest(v, IsDigit);
      assert v + rest == v[..whole] + (v[whole..] + rest);
      SpanExact(v[..whole], v[whole..] + rest, IsDigit);
      SpanAll(part, IsDigit);
      assert part[..Span(part, IsDigit)] == part;
      SpanExact(part, rest, IsDigit);
      assert (v + rest)[whole + 1..] == part + rest;
    }
  }

  /** What NumberSpan takes is a number. */
  lemma NumberTaken(s: string)
    requires s != "" && IsDigit(s[0]) && NumberSpan(s) > 0
    ensures IsNumberText(s[..NumberSpan(s)])
  {
    var n := NumberSpan(s);
    var whole := Span(s, IsDigit);
    SpanAll(s, IsDigit);
    SpanExact(s[..whole], s[whole..n], IsDigit) by {
      SpanRest(s, IsDigit);
    }
    assert s[..n] == s[..whole] + s[whole..n];
    if n > whole {
      var tail := s[whole + 1..];
      var part := Span(tail, IsDigit);
      SpanAll(tail, IsDigit);
      SpanExact(tail[..part], "", IsDigit);
      assert tail[..part] + "" == tail[..part];
      assert s[..n][whole + 1..] == tail[..part];
    }
  }

  lemma {:induction false} LiteralTaken(s: string)
    requires LiteralBody(s).Some?
    ensures '\\' !in LiteralBody(s).value.0
    decreases |s|
  {
    if s[0] == '\'' {
      if |s| > 1 && s[1] == '\'' {
        LiteralTaken(s[2..]);
      }
    } else {
      LiteralTaken(s[1..]);
    }
  }

  lemma StepWellFormed(s: string, at: nat)
    requires s != "" && NextStep(s, at).Take?
    ensures WellFormed(NextStep(s, at).token)
  {
    if StartsWord(s[0]) {
      SpanAll(s, IsWordByte);
    } else if IsDigit(s[0]) {
      NumberTaken(s);
    } else if s[0] == '\'' {
      LiteralTaken(s[1..]);
    } else if s[0] == '%' {
      SpanAll(s, IsPatternByte);
    } else if s[0] == '=' || s[0] == '<' || s[0] == '>' || s[0] == '!' {
      OperatorTaken(s);
    }
  }

  lemma OperatorTaken(s: string)
    requires s != "" && (s[0] == '=' || s[0] == '<' || s[0] == '>' || s[0] == '!')
    requires var v := s[..OperatorSpan(s)]; v !in {"!", "==", ">>", "!!"}
    ensures s[..OperatorSpan(s)] in {"=", "<", ">", "<=", ">=", "<>", "!="}
  {
    if OperatorSpan(s) == 1 {
      assert s[..1] == [s[0]];
    } else {
      assert s[..2] == [s[0], s[1]];
    }
  }

  lemma {:induction false} ScanWellFormed(s: string, at: nat)
    requires Scan(s, at).Some?
    ensures AllWellFormed(Scan(s, at).value)
    decreases |s|
  {
    if s != "" {
      match NextStep(s, at)
      case Skip => ScanWellFormed(s[1..], at + 1);
      case Take(t, n) =>
        StepWellFormed(s, at);
        ScanWellFormed(s[n..], at + n);
    }
  }

  // ----- Well-formed tokens scan back -----------------------------------------------------------------

  /** The token that scanning finds where t was printed at offset at. */
  function Printed(t: Token, at: nat): Token {
    match t.kind
    case Identifier => Token(Identifier, t.value, at, at + |t.value|)
    case LeftParen => Token(LeftParen, t.value, at, 0)
    case _ => Token(t.kind, t.value, 0, 0)
  }

  /** A literal's text begins with one of its characters, or ends. */
  lemma LiteralByte(c: char, tail: string)
    requires c != '\\'
    ensures var s := (if c == '\'' then "''" else [c]) + tail;
      LiteralBody(tail).Some? ==>
        var (v, n) := LiteralBody(tail).value;
        LiteralBody(s) == Some(([c] + v, n + if c == '\'' then 2 else 1))
  {
    var s := (if c == '\'' then "''" else [c]) + tail;
    if c == '\'' {
      assert s[0] == '\'' && s[1] == '\'' && s[2..] == tail;
    } else {
      assert s[0] == c && s[1..] == tail;
    }
  }

  lemma {:induction false} LiteralPrinted(v: string, rest: string)
    requires '\\' !in v && (rest != "" ==> rest[0] != '\'')
    ensures LiteralBody(Doubled(v) + "'" + rest) == Some((v, |Doubled(v)| + 1))
  {
    hide LiteralBody;
    if v == "" {
      LiteralEnds(rest);
      assert Doubled(v) + "'" + rest == "'" + rest;
    } else {
      var head, tail := if v[0] == '\'' then "''" else [v[0]], Doubled(v[1..]) + "'" + rest;
      LiteralPrinted(v[1..], rest);
      LiteralByte(v[0], tail);
      assert Doubled(v) + "'" + rest == head + tail;
      assert v == [v[0]] + v[1..];
    }
  }

  lemma LiteralEnds(rest: string)
    requires rest != "" ==> rest[0] != '\''
    ensures LiteralBody("'" + rest) == Some(("", 1))
  {
  }

  lemma StepPrinted(t: Token, rest: string, at: nat)
    requires WellFormed(t)
    requires rest != "" && (rest[0] == ' ' || (t.kind == Identifier && rest[0] == '('))
    ensures NextStep(PrintToken(t) + rest, at) == Take(Printed(t, at), |PrintToken(t)|)
  {
    var s := PrintToken(t) + rest;
    assert s[..|PrintToken(t)|] == PrintToken(t);
    match t.kind
    case Identifier =>
      SpanExact(t.value, rest, IsWordByte);
    case Number =>
      NumberExact(t.value, rest);
    case StringText =>
      assert s == "'" + (Doubled(t.value) + "'" + rest);
      LiteralPrinted(t.value, rest);
    case Pattern =>
      SpanExact(t.value, rest, IsPatternByte);
    case Comparison =>
      OperatorPrinted(t.value, rest);
    case _ =>
  }

  lemma OperatorPrinted(v: string, rest: string)
    requires v in {"=", "<", ">", "<=", ">=", "<>", "!="} && rest != "" && rest[0] == ' '
    ensures OperatorSpan(v + rest) == |v|
  {
  }

  /** Where token i stands in the printed text. */
  function Offset(ts: seq<Token>, i: nat): nat
    requires i <= |ts|
  {
    if i == 0 then 0 else Offset(ts, i - 1) + |PrintToken(ts[i - 1])| + if GluesNext(ts, i - 1) then 0 else 1
  }

  function Reprinted(ts: seq<Token>): seq<Token> {
    seq(|ts|, i requires 0 <= i < |ts| => Printed(ts[i], Offset(ts, i)))
  }

  lemma {:induction false} ScanPrinted(ts: seq<Token>, i: nat)
    requires i <= |ts| && AllWellFormed(ts)
    ensures Scan(Print(ts, i), Offset(ts, i)) == Some(Reprinted(ts)[i..])
    decreases |ts| - i
  {
    hide NextStep, LiteralBody, Offset, Printed, PrintToken, AllWellFormed;
    var all := Reprinted(ts);
    if i == |ts| {
      assert all[i..] == [];
    } else {
      ScanPrinted(ts, i + 1);
      ScanOne(ts, i);
      assert [all[i]] + all[i + 1..] == all[i..];
      assert Before([all[i]], Some(all[i + 1..])) == Some(all[i..]);
    }
  }

  lemma ScanOne(ts: seq<Token>, i: nat)
    requires i < |ts| && AllWellFormed(ts)
    ensures Scan(Print(ts, i), Offset(ts, i)) == Before([Reprinted(ts)[i]], Scan(Print(ts, i + 1), Offset(ts, i + 1)))
  {
    hide NextStep, Scan, Print, Rest, Printed, PrintToken, LiteralBody, WellFormed;
    var t, at := ts[i], Offset(ts, i);
    RestStarts(ts, i);
    StepPrinted(t, Rest(ts, i), at);
    ScanTake(PrintToken(t) + Rest(ts, i), at, Printed(t, at), |PrintToken(t)|);
    PrintSplit(ts, i);
    ScanRest(ts, i);
  }

  lemma ScanTake(s: string, at: nat, t: Token, n: nat)
    requires s != "" && NextStep(s, at) == Take(t, n)
    ensures n <= |s| && Scan(s, at) == Before([t], Scan(s[n..], at + n))
  {
  }

  lemma PrintSplit(ts: seq<Token>, i: nat)
    requires i < |ts|
    ensures Print(ts, i) == PrintToken(ts[i]) + Rest(ts, i)
    ensures Print(ts, i)[|PrintToken(ts[i])|..] == Rest(ts, i)
  {
  }

  /** The printed text after token i. */
  function Rest(ts: seq<Token>, i: nat): string
    requires i < |ts|
  {
    (if GluesNext(ts, i) then "" else " ") + Print(ts, i + 1)
  }

  lemma RestStarts(ts: seq<Token>, i: nat)
    requires i < |ts| && AllWellFormed(ts)
    ensures var s := Rest(ts, i); s != "" && (s[0] == ' ' || (ts[i].kind == Identifier && s[0] == '('))
  {
    if GluesNext(ts, i) {
      assert PrintToken(ts[i + 1]) == "(";
    }
  }

  lemma ScanRest(ts: seq<Token>, i: nat)
    requires i < |ts|
    ensures Scan(Rest(ts, i), Offset(ts, i) + |PrintToken(ts[i])|) == Scan(Print(ts, i + 1), Offset(ts, i + 1))
  {
    if GluesNext(ts, i) {
      assert Rest(ts, i) == Print(ts, i + 1);
    } else {
      assert Rest(ts, i)[1..] == Print(ts, i + 1);
    }
  }

  lemma TouchesPrinted(ts: seq<Token>, i: nat)
    requires i < |ts| && ts[i].kind == LeftParen
    ensures Touches(Reprinted(ts), i) == Touches(ts, i)
  {
  }

  lemma {:induction false} StreamPrinted(ts: seq<Token>, i: nat)
    requires i <= |ts|
    ensures Stream(Reprinted(ts), i) == Stream(ts, i)
    decreases |ts| - i
  {
    if i < |ts| {
      StreamPrinted(ts, i + 1);
      assert SymbolAt(Reprinted(ts), i) == SymbolAt(ts, i) by {
        if ts[i].kind == LeftParen {
          TouchesPrinted(ts, i);
        }
      }
    }
  }

  predicate SameText(a: Token, b: Token) {
    a.kind == b.kind && a.value == b.value
  }

  /** Printing and scanning again shows the reader the same symbols. */
  lemma Reprinting(ts: seq<Token>)
    requires AllWellFormed(ts)
    ensures Scan(Print(ts, 0), 0) == Some(Reprinted(ts))
    ensures Stream(Reprinted(ts), 0) == Stream(ts, 0)
    ensures forall i | 0 <= i < |ts| :: SameText(Reprinted(ts)[i], ts[i])
  {
    ScanPrinted(ts, 0);
    StreamPrinted(ts, 0);
    assert Reprinted(ts)[0..] == Reprinted(ts);
  }

  // ----- Tokens in so many bytes ---------------------------------------------------------------------

  predicate IsWordChar(c: char) {
    'a' <= c <= 'z' || 'A' <= c <= 'Z' || '0' <= c <= '9' || c == '_'
  }

  /** Digits, with a dot among them but not at an end. */
  predicate IsDecimal(v: string) {
    && v != "" && (forall c | c in v :: '0' <= c <= '9' || c == '.') && v[0] != '.' && v[|v| - 1] != '.'
    && (forall i, j | 0 <= i < j < |v| :: v[i] != '.' || v[j] != '.')
  }

  /** The texts that are read as tokens of each kind. */
  lemma WellFormedExactly(t: Token)
    ensures WellFormed(t) <==>
      match t.kind
      case Identifier => t.value != "" && !('0' <= t.value[0] <= '9') && forall c | c in t.value :: IsWordChar(c)
      case Number => IsDecimal(t.value)
      case StringText => '\\' !in t.value
      case Comma => t.value == ","
      case LeftParen => t.value == "("
      case RightParen => t.value == ")"
      case Star => t.value == "*"
      case Dot => t.value == "."
      case Comparison => t.value in {"=", "<", ">", "<=", ">=", "<>", "!="}
      case Pattern => t.value != "" && t.value[0] == '%' && forall c | c in t.value :: c == '%' || IsWordChar(c)
  {
    hide IsNumberText, IsDecimal, IsWordChar;
    DecimalIsNumber(t.value);
    NumberIsDecimal(t.value);
    WordBytes(t.value);
  }

  lemma WordBytes(v: string)
    ensures All(v, IsWordByte) <==> forall c | c in v :: IsWordChar(c)
    ensures All(v, IsPatternByte) <==> forall c | c in v :: c == '%' || IsWordChar(c)
    ensures v != "" ==> (StartsWord(v[0]) <==> IsWordChar(v[0]) && !('0' <= v[0] <= '9'))
  {
  }

  lemma NoDot(v: string)
    requires All(v, IsDigit)
    ensures forall i | 0 <= i < |v| :: '0' <= v[i] <= '9'
  {
    forall i | 0 <= i < |v|
      ensures '0' <= v[i] <= '9'
    {
      assert v[i] in v;
    }
  }

  lemma DigitsAreDecimal(a: string, b: string)
    requires a != "" && All(a, IsDigit) && All(b, IsDigit)
    ensures IsDecimal(a)
    ensures b != "" ==> IsDecimal(a + "." + b)
  {
    NoDot(a);
    NoDot(b);
  }

  lemma NumberIsDecimal(v: string)
    ensures IsNumberText(v) ==> IsDecimal(v)
  {
    hide IsDecimal, Span;
    if IsNumberText(v) {
      var whole := Span(v, IsDigit);
      SpanAll(v, IsDigit);
      if whole == |v| {
        assert v[..whole] == v;
        DigitsAreDecimal(v, "");
      } else {
        var part := v[whole + 1..];
        SpanAll(part, IsDigit);
        assert part[..Span(part, IsDigit)] == part && v == v[..whole] + "." + part;
        StartsDigit(v);
        DigitsAreDecimal(v[..whole], part);
      }
    }
  }

  lemma StartsDigit(v: string)
    requires v != "" && IsDigit(v[0])
    ensures Span(v, IsDigit) > 0
  {
  }

  lemma DecimalIsNumber(v: string)
    ensures IsDecimal(v) ==> IsNumberText(v)
  {
    if IsDecimal(v) {
      var whole := Span(v, IsDigit);
      SpanRest(v, IsDigit);
      if whole < |v| {
        assert v[whole] in v;
        var part := v[whole + 1..];
        assert All(part, IsDigit) by {
          forall c | c in part
            ensures IsDigit(c)
          {
            var i :| 0 <= i < |part| && part[i] == c;
            assert v[whole + 1 + i] == c && c in v;
          }
        }
        SpanExact(part, "", IsDigit);
        assert part + "" == part;
      }
    }
  }

  /** What a token begins with tells its kind; blanks are skipped, and nothing begins with another byte. */
  lemma FirstBytes(s: string, at: nat)
    requires s != ""
    ensures var c, step := s[0], NextStep(s, at);
      && (step.Skip? <==> c in {' ', '\t', '\n', '\r'})
      && (step.Take? ==>
            match step.token.kind
            case Identifier => IsWordChar(c) && !('0' <= c <= '9')
            case Number => '0' <= c <= '9'
            case StringText => c == '\''
            case Comma => c == ','
            case LeftParen => c == '('
            case RightParen => c == ')'
            case Star => c == '*'
            case Dot => c == '.'
            case Comparison => c in {'=', '<', '>', '!'}
            case Pattern => c == '%')
      && (step.Reject? ==> !IsWordChar(c) || '0' <= c <= '9')
  {
    hide LiteralBody, Span, NumberSpan;
  }

  // ----- What scanned texts are made of --------------------------------------------------------------

  predicate IsTokenByte(c: char) {
    IsBlank(c) || IsWordByte(c) || c in {',', '(', ')', '*', '.', '=', '<', '>', '!', '%'}
  }

  /**
    Outside quoted literals s has only blanks and token bytes; inside them, no backslash; and the
    last literal is closed. inside: s starts within a literal.
   */
  predicate Plain(s: string, inside: bool) {
    if s == "" then !inside
    else if s[0] == '\'' then Plain(s[1..], !inside)
    else (if inside then s[0] != '\\' else IsTokenByte(s[0])) && Plain(s[1..], inside)
  }

  lemma {:induction false} TokenBytesPlain(v: string, rest: string)
    requires All(v, IsTokenByte) && Plain(rest, false)
    ensures Plain(v + rest, false)
  {
    if v == "" {
      assert v + rest == rest;
    } else {
      assert v[0] in v && forall c | c in v[1..] :: c in v;
      TokenBytesPlain(v[1..], rest);
      assert (v + rest)[1..] == v[1..] + rest;
    }
  }

  lemma {:induction false} LiteralPlain(s: string)
    requires LiteralBody(s).Some? && Plain(s[LiteralBody(s).value.1..], false)
    ensures Plain(s, true)
    decreases |s|
  {
    var n := LiteralBody(s).value.1;
    if s[0] == '\'' {
      if |s| > 1 && s[1] == '\'' {
        assert s[2..][n - 2..] == s[n..];
        LiteralPlain(s[2..]);
        assert s[1..][1..] == s[2..];
      }
    } else {
      assert s[1..][n - 1..] == s[n..];
      LiteralPlain(s[1..]);
    }
  }

  lemma {:induction false} ScanPlain(s: string, at: nat)
    requires Scan(s, at).Some?
    ensures Plain(s, false)
    decreases |s|
  {
    if s != "" {
      match NextStep(s, at)
      case Skip => ScanPlain(s[1..], at + 1);
      case Take(t, n) =>
        ScanPlain(s[n..], at + n);
        if s[0] == '\'' {
          assert s[1..][n - 1..] == s[n..];
          LiteralPlain(s[1..]);
        } else {
          TakenBytes(s, at);
          TokenBytesPlain(s[..n], s[n..]);
          assert s == s[..n] + s[n..];
        }
    }
  }

  lemma TakenBytes(s: string, at: nat)
    requires s != "" && s[0] != '\'' && NextStep(s, at).Take?
    ensures All(s[..NextStep(s, at).size], IsTokenByte)
  {
    if StartsWord(s[0]) {
      SpanAll(s, IsWordByte);
    } else if IsDigit(s[0]) {
      var whole := Span(s, IsDigit);
      SpanAll(s, IsDigit);
      SpanAll(s[if whole < |s| then whole + 1 else whole..], IsDigit);
      var n := NumberSpan(s);
      if n > whole {
        assert s[..n] == s[..whole] + ['.'] + s[whole + 1..][..n - whole - 1];
      }
    } else if s[0] == '%' {
      SpanAll(s, IsPatternByte);
    }
  }

  lemma {:induction false} PlainHasNoBackslash(s: string, inside: bool)
    requires Plain(s, inside)
    ensures '\\' !in s
  {
    if s != "" {
      PlainHasNoBackslash(s[1..], if s[0] == '\'' then !inside else inside);
    }
  }
}
