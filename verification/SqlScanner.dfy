/** scanSQL of internal/policy/mysql.go: from an SQL text to its tokens. */
module SqlScanner {
  import opened Ascii
  import opened SqlTokens

  // ----- What one scanning step takes -----------------------------------------------------------

  predicate IsBlank(c: char) {
    c == ' ' || c == '\t' || c == '\n' || c == '\r'
  }

  predicate StartsWord(c: char) {
    IsLetter(c) || c == '_'
  }

  predicate IsWordByte(c: char) {
    IsLetter(c) || IsDigit(c) || c == '_'
  }

  predicate IsPatternByte(c: char) {
    c == '%' || IsWordByte(c)
  }

  /** How many bytes at the start of s satisfy p. */
  function Span(s: string, p: char -> bool): (n: nat)
    ensures n <= |s|
  {
    if s != "" && p(s[0]) then 1 + Span(s[1..], p) else 0
  }

  /** A quoted literal after its opening quote: its value and the bytes it takes. */
  function LiteralBody(s: string): (r: Option<(string, nat)>)
    ensures r.Some? ==> 0 < r.value.1 <= |s|
  {
    if s == "" || s[0] == '\\' then None
    else if s[0] == '\'' then
      if |s| > 1 && s[1] == '\'' then AfterByte('\'', 2, LiteralBody(s[2..])) else Some(("", 1))
    else AfterByte(s[0], 1, LiteralBody(s[1..]))
  }

  function AfterByte(c: char, n: nat, r: Option<(string, nat)>): Option<(string, nat)> {
    if r.Some? then Some(([c] + r.value.0, n + r.value.1)) else None
  }

  /** Digits, and if a dot follows them, the dot and at least one more digit. */
  function NumberSpan(s: string): (n: nat)
    ensures n <= |s|
  {
    var whole := Span(s, IsDigit);
    if whole < |s| && s[whole] == '.' then
      var part := Span(s[whole + 1..], IsDigit);
      if part == 0 then 0 else whole + 1 + part
    else whole
  }

  function OperatorSpan(s: string): (n: nat)
    requires s != ""
    ensures 0 < n <= |s|
  {
    if |s| > 1 && (s[1] == '=' || (s[0] == '<' && s[1] == '>')) then 2 else 1
  }

  datatype Step = Reject | Skip | Take(token: Token, size: nat)

  /** The step at the start of s, which stands at offset at of the text. */
  function NextStep(s: string, at: nat): (r: Step)
    requires s != ""
    ensures r.Take? ==> 0 < r.size <= |s|
  {
    var c := s[0];
    if IsBlank(c) then Skip
    else if StartsWord(c) then
      var n := Span(s, IsWordByte);
      Take(Token(Identifier, s[..n], at, at + n), n)
    else if IsDigit(c) then
      var n := NumberSpan(s);
      if n == 0 then Reject else Take(Token(Number, s[..n], 0, 0), n)
    else if c == '\'' then
      var body := LiteralBody(s[1..]);
      if body.None? then Reject else Take(Token(StringText, body.value.0, 0, 0), 1 + body.value.1)
    else if c == ',' then Take(Token(Comma, ",", 0, 0), 1)
    else if c == '(' then Take(Token(LeftParen, "(", at, 0), 1)
    else if c == ')' then Take(Token(RightParen, ")", 0, 0), 1)
    else if c == '*' then Take(Token(Star, "*", 0, 0), 1)
    else if c == '.' then Take(Token(Dot, ".", 0, 0), 1)
    else if c == '=' || c == '<' || c == '>' || c == '!' then
      var n := OperatorSpan(s);
      if s[..n] in {"!", "==", ">>", "!!"} then Reject else Take(Token(Comparison, s[..n], 0, 0), n)
    else if c == '%' then
      var n := Span(s, IsPatternByte);
      Take(Token(Pattern, s[..n], 0, 0), n)
    else Reject
  }

  /** The tokens of s, which stands at offset at of the text. */
  function Scan(s: string, at: nat): Option<seq<Token>>
    decreases |s|
  {
    if s == "" then Some([])
    else
      match NextStep(s, at)
      case Reject => None
      case Skip => Scan(s[1..], at + 1)
      case Take(t, n) => Before([t], Scan(s[n..], at + n))
  }

  function Before(ts: seq<Token>, r: Option<seq<Token>>): Option<seq<Token>> {
    if r.Some? then Some(ts + r.value) else None
  }

  /** The tokens of a whole text; a text without tokens is refused. */
  function Tokens(query: string): Option<seq<Token>> {
    var r := Scan(query, 0);
    if r.Some? && r.value != [] then r else None
  }

  // ----- The scanner itself -----------------------------------------------------------------------

  method SpanEnd(query: string, start: nat, p: char -> bool) returns (index: nat)
    requires start <= |query|
    ensures start <= index <= |query| && index == start + Span(query[start..], p)
  {
    index := start;
    while index < |query| && p(query[index])
      invariant start <= index <= |query|
      invariant index + Span(query[index..], p) == start + Span(query[start..], p)
    {
      assert query[index..][1..] == query[index + 1..];
      index := index + 1;
    }
  }

  function AfterText(v: string, n: nat, r: Option<(string, nat)>): Option<(string, nat)> {
    if r.Some? then Some((v + r.value.0, n + r.value.1)) else None
  }

  lemma AfterNoText(r: Option<(string, nat)>)
    ensures AfterText("", 0, r) == r
  {
    if r.Some? {
      assert "" + r.value.0 == r.value.0;
    }
  }

  lemma AfterOneMore(v: string, c: char, n: nat, m: nat, r: Option<(string, nat)>)
    ensures AfterText(v, n, AfterByte(c, m, r)) == AfterText(v + [c], n + m, r)
  {
    if r.Some? {
      assert v + ([c] + r.value.0) == v + [c] + r.value.0;
    }
  }

  method ScanLiteral(query: string, start: nat) returns (closed: bool, literal: string, index: nat)
    requires start <= |query|
    ensures var r := LiteralBody(query[start..]);
      closed == r.Some? && (closed ==> literal == r.value.0 && index == start + r.value.1 <= |query|)
  {
    literal, index := "", start;
    AfterNoText(LiteralBody(query[start..]));
    while index < |query|
      invariant start <= index <= |query|
      invariant LiteralBody(query[start..]) == AfterText(literal, index - start, LiteralBody(query[index..]))
    {
      if query[index] == '\\' {
        return false, literal, index;
      }
      if query[index] == '\'' {
        if index + 1 < |query| && query[index + 1] == '\'' {
          assert query[index..][2..] == query[index + 2..];
          AfterOneMore(literal, '\'', index - start, 2, LiteralBody(query[index + 2..]));
          literal := literal + ['\''];
          index := index + 2;
          continue;
        }
        assert literal + "" == literal;
        return true, literal, index + 1;
      }
      assert query[index..][1..] == query[index + 1..];
      AfterOneMore(literal, query[index], index - start, 1, LiteralBody(query[index + 1..]));
      literal := literal + [query[index]];
      index := index + 1;
    }
    closed := false;
  }

  method ScanNumber(query: string, start: nat) returns (ok: bool, index: nat)
    requires start < |query| && IsDigit(query[start])
    ensures var n := NumberSpan(query[start..]);
      ok == (n > 0) && (ok ==> index == start + n <= |query|)
  {
    index := SpanEnd(query, start, IsDigit);
    ok := true;
    if index < |query| && query[index] == '.' {
      var decimalStart := index + 1;
      assert query[start..][index - start + 1..] == query[decimalStart..];
      index := SpanEnd(query, decimalStart, IsDigit);
      ok := decimalStart != index;
    }
  }

  function Punctuation(c: char, at: nat): Token
    requires c in ",()*."
  {
    if c == ',' then Token(Comma, ",", 0, 0)
    else if c == '(' then Token(LeftParen, "(", at, 0)
    else if c == ')' then Token(RightParen, ")", 0, 0)
    else if c == '*' then Token(Star, "*", 0, 0)
    else Token(Dot, ".", 0, 0)
  }

  /** The token at start, where no blank stands, and the offset after it. */
  method ScanToken(query: string, start: nat) returns (ok: bool, token: Token, index: nat)
    requires start < |query| && !IsBlank(query[start])
    ensures var step := NextStep(query[start..], start);
      && ok == step.Take?
      && (ok ==> start < index <= |query| && step == Take(token, index - start))
  {
    var c := query[start];
    ghost var s := query[start..];
    ok := true;
    if StartsWord(c) {
      index := SpanEnd(query, start, IsWordByte);
      token := Token(Identifier, query[start..index], start, index);
    } else if IsDigit(c) {
      ok, index := ScanNumber(query, start);
      token := Token(Number, if ok then query[start..index] else "", 0, 0);
    } else if c == '\'' {
      assert s[1..] == query[start + 1..];
      var literal;
      ok, literal, index := ScanLiteral(query, start + 1);
      token := Token(StringText, literal, 0, 0);
    } else if c in ",()*." {
      token := Punctuation(c, start);
      index := start + 1;
    } else if c == '=' || c == '<' || c == '>' || c == '!' {
      index := start + 1;
      if index < |query| && (query[index] == '=' || (c == '<' && query[index] == '>')) {
        index := index + 1;
      }
      var operator := query[start..index];
      assert operator == s[..OperatorSpan(s)];
      ok := !(operator == "!" || operator == "==" || operator == ">>" || operator == "!!");
      token := Token(Comparison, operator, 0, 0);
    } else if c == '%' {
      index := SpanEnd(query, start, IsPatternByte);
      token := Token(Pattern, query[start..index], 0, 0);
    } else {
      ok, token, index := false, Token(Dot, "", 0, 0), start;
    }
  }

  method ScanSQL(query: string) returns (result: seq<Token>, ok: bool)
    ensures ok == Tokens(query).Some? && (ok ==> result == Tokens(query).value)
  {
    result := [];
    var index := 0;
    BeforeNothing(Scan(query, 0));
    assert query[0..] == query;
    while index < |query|
      invariant index <= |query|
      invariant Scan(query, 0) == Before(result, Scan(query[index..], index))
    {
      if IsBlank(query[index]) {
        assert query[index..][1..] == query[index + 1..];
        index := index + 1;
        continue;
      }
      var valid, token, end := ScanToken(query, index);
      if !valid {
        return [], false;
      }
      assert query[index..][end - index..] == query[end..];
      BeforeBefore(result, [token], Scan(query[end..], end));
      result := result + [token];
      index := end;
    }
    ok := result != [];
  }

  lemma BeforeNothing(r: Option<seq<Token>>)
    ensures Before([], r) == r
  {
    if r.Some? {
      assert [] + r.value == r.value;
    }
  }

  lemma BeforeBefore(a: seq<Token>, b: seq<Token>, r: Option<seq<Token>>)
    ensures Before(a, Before(b, r)) == Before(a + b, r)
  {
    if r.Some? {
      assert a + (b + r.value) == a + b + r.value;
    }
  }
}
