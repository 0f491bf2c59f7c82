/** Tokens of an SQL text (internal/policy/mysql.go) and the symbols the reader sees in them. */
module SqlTokens {
  import opened Ascii
  import opened SqlWords
  import G = SqlGrammar

  datatype Kind =
    | Identifier | Number | StringText | Comma | LeftParen | RightParen | Star | Dot | Comparison | Pattern

  /** start and end are kept for identifiers, start for opening parentheses. */
  datatype Token = Token(kind: Kind, value: string, start: nat, end: nat)

  function WordSymbol(value: string): G.Symbol {
    var w := ToUpper(value);
    var k := KeywordOf(w);
    if k.Some? then G.Key(k.value) else G.Name(w)
  }

  /** Does token i touch the identifier before it? */
  predicate Touches(ts: seq<Token>, i: nat)
    requires i < |ts|
  {
    i > 0 && ts[i - 1].kind == Identifier && ts[i - 1].end == ts[i].start
  }

  function SymbolAt(ts: seq<Token>, i: nat): G.Symbol
    requires i < |ts|
  {
    match ts[i].kind
    case Identifier => WordSymbol(ts[i].value)
    case Number => G.Num(ts[i].value)
    case StringText => G.Text(ts[i].value)
    case Comma => G.Comma
    case LeftParen => G.Open(Touches(ts, i))
    case RightParen => G.Close
    case Star => G.Star
    case Dot => G.Dot
    case Comparison => G.Compare(ts[i].value)
    case Pattern => G.Pattern(ts[i].value)
  }

  /** The symbols from token i on. */
  function Stream(ts: seq<Token>, i: nat): G.Symbols
    requires i <= |ts|
    decreases |ts| - i
  {
    if i == |ts| then G.End else G.Then(SymbolAt(ts, i), Stream(ts, i + 1))
  }

  /** s without its first n symbols. */
  function Drop(s: G.Symbols, n: nat): G.Symbols {
    if n == 0 || s.End? then s else Drop(s.tail, n - 1)
  }

  lemma {:induction false} DropStream(ts: seq<Token>, i: nat, n: nat)
    requires i + n <= |ts|
    ensures Drop(Stream(ts, i), n) == Stream(ts, i + n)
    decreases n
  {
    if n > 0 {
      DropStream(ts, i + 1, n - 1);
    }
  }

  /** reservedSQLWord. */
  predicate Reserved(value: string) {
    KeywordOf(ToUpper(value)).Some?
  }

  lemma KeywordFold(value: string, k: Keyword)
    ensures EqualFold(value, Spelling(k)) <==> KeywordOf(ToUpper(value)) == Some(k)
  {
    SpellingKnown(k);
    SpellingIsUpper(k);
  }

  lemma KeywordSeen(ts: seq<Token>, i: nat, k: Keyword)
    requires i < |ts|
    ensures ts[i].kind == Identifier && EqualFold(ts[i].value, Spelling(k)) <==> SymbolAt(ts, i) == G.Key(k)
  {
    KeywordFold(ts[i].value, k);
  }

  /** What the reader sees of an identifier and of a parenthesis after it. */
  lemma NameSeen(ts: seq<Token>, i: nat)
    requires i < |ts| && ts[i].kind == Identifier
    ensures Stream(ts, i) == G.Then(WordSymbol(ts[i].value), Stream(ts, i + 1))
    ensures i + 1 < |ts| && ts[i + 1].kind == LeftParen ==>
      Stream(ts, i + 1) == G.Then(G.Open(ts[i].end == ts[i + 1].start), Stream(ts, i + 2))
    ensures Reserved(ts[i].value) ==> FnOf(ToUpper(ts[i].value)).None? && WordSymbol(ts[i].value).Key?
    ensures !Reserved(ts[i].value) ==> WordSymbol(ts[i].value) == G.Name(ToUpper(ts[i].value))
  {
  }
}
