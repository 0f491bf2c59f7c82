/** The two SQL validators of internal/policy/mysql.go, and what they promise about a query text. */
module SqlText {
  import opened Ascii
  import opened SqlWords
  import opened SqlTokens
  import G = SqlGrammar
  import opened SqlTheorems
  import opened SqlScanner
  import opened SqlPrinting
  import opened SqlSafety
  import opened SqlSpelling
  import opened SqlClauses
  import P = SqlParser

  predicate AcceptsReadOnly(query: string) {
    var ts := Tokens(query);
    ts.Some? && AcceptsStatement(Stream(ts.value, 0))
  }

  predicate AcceptsSelect(query: string) {
    var ts := Tokens(query);
    ts.Some? && AcceptsLegacySelect(Stream(ts.value, 0))
  }

  method ValidateReadOnlySQL(query: string) returns (ok: bool)
    ensures ok == AcceptsReadOnly(query)
  {
    var tokens;
    tokens, ok := ScanSQL(query);
    if !ok {
      return;
    }
    var parser := new P.Parser(tokens, true);
    ok := parser.ReadAnyStatement();
    parser.EndHere();
    ok := ok && parser.AtEnd();
  }

  method ValidateSelectSQL(query: string) returns (ok: bool)
    ensures ok == AcceptsSelect(query)
  {
    var tokens;
    tokens, ok := ScanSQL(query);
    if !ok {
      return;
    }
    var parser := new P.Parser(tokens, false);
    ok := parser.SelectStatement();
    parser.EndHere();
    ok := ok && parser.AtEnd();
  }

  /** The validator accepts a text exactly when its tokens write some statement of the language. */
  lemma ReadOnlyExactly(query: string)
    ensures AcceptsReadOnly(query) <==>
      exists a: G.Statement :: G.StatementFits(a) && G.StatementDepth(a) <= 64
        && Tokens(query).Some? && G.WriteStatement(a) == Stream(Tokens(query).value, 0)
  {
    if Tokens(query).Some? {
      StatementsExactly(Stream(Tokens(query).value, 0));
    }
  }

  lemma SelectWithinReadOnly(query: string)
    requires AcceptsSelect(query)
    ensures AcceptsReadOnly(query)
  {
    LegacyWithinExtended(Stream(Tokens(query).value, 0));
  }

  /** Printing the tokens of a query again changes nothing for either validator. */
  lemma ReprintingKeepsAcceptance(query: string)
    requires Tokens(query).Some?
    ensures var again := Print(Tokens(query).value, 0);
      AcceptsReadOnly(again) == AcceptsReadOnly(query) && AcceptsSelect(again) == AcceptsSelect(query)
  {
    var ts := Tokens(query).value;
    ScanWellFormed(query, 0);
    Reprinting(ts);
  }

  lemma AcceptedTextIsPlain(query: string)
    requires AcceptsReadOnly(query)
    ensures Plain(query, false) && '\\' !in query
  {
    ScanPlain(query, 0);
    PlainHasNoBackslash(query, false);
  }

  // ----- The tokens of an accepted query ------------------------------------------------------------

  /** Parentheses opened and not yet closed before token i. */
  function Nesting(ts: seq<Token>, i: nat): int
    requires i <= |ts|
  {
    if i == 0 then 0
    else
      var kind := ts[i - 1].kind;
      Nesting(ts, i - 1) + (if kind == LeftParen then 1 else if kind == RightParen then -1 else 0)
  }

  lemma {:induction false} TidyTokens(ts: seq<Token>, i: nat, j: nat)
    requires i <= j <= |ts| && 0 <= Nesting(ts, i) <= G.MaxDepth && Tidy(Stream(ts, i), Nesting(ts, i))
    ensures 0 <= Nesting(ts, j) <= G.MaxDepth && Tidy(Stream(ts, j), Nesting(ts, j))
    decreases j - i
  {
    hide KeywordOf;
    if i < j {
      TidyTokens(ts, i + 1, j);
    }
  }

  lemma TidyToken(ts: seq<Token>, i: nat, open: nat)
    requires i < |ts| && Tidy(Stream(ts, i), open)
    ensures forall k | Banned(k) :: SymbolAt(ts, i) != G.Key(k)
    ensures IsPlainName(ts, i) && i + 1 < |ts| && ts[i + 1].kind == LeftParen ==>
      IsCalled(ts, i, {"COUNT", "SUM", "AVG", "MIN", "MAX", "UPPER", "LOWER", "REPLACE"})
  {
    hide ReservedWords, KeywordOf, FnOf;
    if ts[i].kind == Identifier {
      NameSeen(ts, i);
      ReservedExactly(ts[i].value);
    }
  }

  /** An accepted query is tidy from its first token on, or from the one after SELECT. */
  lemma TidyStart(ts: seq<Token>) returns (first: nat)
    requires AcceptsStatement(Stream(ts, 0))
    ensures first <= |ts| && first <= 1 && Tidy(Stream(ts, first), 0)
    ensures forall i | 0 <= i <= first :: Nesting(ts, i) == 0
    ensures first == 1 ==> SymbolAt(ts, 0) == G.Key(SELECT)
  {
    hide AcceptsStatement, Tidy, KeywordOf;
    AcceptedTidy(Stream(ts, 0));
    first := if |ts| > 0 && SymbolAt(ts, 0) == G.Key(SELECT) then 1 else 0;
  }

  lemma BannedSaid(ts: seq<Token>, i: nat)
    requires i < |ts| && forall k | Banned(k) && k != SELECT :: SymbolAt(ts, i) != G.Key(k)
    ensures ts[i].kind == Identifier ==>
      ToUpper(ts[i].value) !in
      {"UNION", "INTO", "OUTFILE", "DUMPFILE", "FOR", "LOCK", "PROCEDURE", "USING", "WITH"}
  {
    hide SymbolAt, Said;
    OthersSaid(ts, i);
    BannedOthers();
    if ts[i].kind == Identifier {
      SaidText(ts, i);
    }
  }

  lemma BannedOthers()
    ensures Banned(UNION) && Banned(INTO) && Banned(OUTFILE) && Banned(DUMPFILE) && Banned(FOR)
    ensures Banned(LOCK) && Banned(PROCEDURE) && Banned(USING) && Banned(WITH) && Banned(SELECT)
  {
  }

  lemma SaidText(ts: seq<Token>, i: nat)
    requires i < |ts| && ts[i].kind == Identifier
    ensures Said(ts, i, ToUpper(ts[i].value))
  {
  }

  lemma TidyEnd(ts: seq<Token>)
    ensures 0 <= Nesting(ts, |ts|) && Tidy(Stream(ts, |ts|), Nesting(ts, |ts|)) ==> Nesting(ts, |ts|) == 0
  {
  }

  lemma SelectIsReserved(ts: seq<Token>)
    requires ts != [] && SymbolAt(ts, 0) == G.Key(SELECT)
    ensures !IsPlainName(ts, 0)
    ensures forall k | k != SELECT :: SymbolAt(ts, 0) != G.Key(k)
  {
    hide SymbolAt;
    NamesSaid(ts, 0);
  }

  /**
    SELECT stands only at the start of an accepted query, words that write or lock never occur,
    only the eight functions are called and only glued, and parentheses balance and nest at most 64 deep.
   */
  lemma AcceptedTokens(query: string)
    requires AcceptsReadOnly(query)
    ensures var ts := Tokens(query).value;
      && (forall i | 0 <= i < |ts| && ts[i].kind == Identifier ::
            && ToUpper(ts[i].value) !in
               {"UNION", "INTO", "OUTFILE", "DUMPFILE", "FOR", "LOCK", "PROCEDURE", "USING", "WITH"}
            && (i > 0 ==> ToUpper(ts[i].value) != "SELECT"))
      && (forall i | 0 <= i < |ts| - 1 && IsPlainName(ts, i) && ts[i + 1].kind == LeftParen ::
            && ToUpper(ts[i].value) in {"COUNT", "SUM", "AVG", "MIN", "MAX", "UPPER", "LOWER", "REPLACE"}
            && ts[i].end == ts[i + 1].start)
      && (forall i | 0 <= i <= |ts| :: 0 <= Nesting(ts, i) <= 64)
      && Nesting(ts, |ts|) == 0
  {
    hide Tokens, Tidy, Nesting, Banned, IsPlainName, KeywordOf, AcceptsStatement, SymbolAt;
    var ts := Tokens(query).value;
    var first := TidyStart(ts);
    forall i | first <= i <= |ts|
      ensures 0 <= Nesting(ts, i) <= G.MaxDepth && Tidy(Stream(ts, i), Nesting(ts, i))
    {
      TidyTokens(ts, first, i);
    }
    BannedOthers();
    forall i | 0 <= i < |ts| && ts[i].kind == Identifier
      ensures ToUpper(ts[i].value) !in
        {"UNION", "INTO", "OUTFILE", "DUMPFILE", "FOR", "LOCK", "PROCEDURE", "USING", "WITH"}
      ensures i > 0 ==> ToUpper(ts[i].value) != "SELECT"
    {
      if i >= first {
        TidyToken(ts, i, Nesting(ts, i));
      } else {
        SelectIsReserved(ts);
      }
      BannedSaid(ts, i);
      ClausesSaid(ts, i);
      SaidText(ts, i);
    }
    forall i | 0 <= i < |ts| - 1 && IsPlainName(ts, i) && ts[i + 1].kind == LeftParen
      ensures IsCalled(ts, i, {"COUNT", "SUM", "AVG", "MIN", "MAX", "UPPER", "LOWER", "REPLACE"})
    {
      if i >= first {
        TidyToken(ts, i, Nesting(ts, i));
      } else {
        SelectIsReserved(ts);
      }
    }
    TidyEnd(ts);
  }

  /** What is accepted, by the words it begins with. */
  lemma AcceptedExactly(query: string)
    requires Tokens(query).Some?
    ensures var ts := Tokens(query).value;
      AcceptsReadOnly(query) <==>
      || IsShow(ts) || IsDescribe(ts)
      || (Said(ts, 0, "SELECT") && exists q: G.Select ::
            G.SelectFits(q, true) && G.SelectDepth(q) <= 64 && G.WriteSelect(q, G.End) == Stream(ts, 0))
  {
    hide Tokens, AcceptsStatement, Stream, G.SelectFits, G.SelectDepth, G.WriteSelect;
    var ts := Tokens(query).value;
    if AcceptsStatement(Stream(ts, 0)) {
      FirstWord(ts);
    }
    if Said(ts, 0, "SHOW") {
      ShowExactly(ts);
    } else if Said(ts, 0, "DESCRIBE") || Said(ts, 0, "DESC") {
      DescribeExactly(ts);
    } else {
      SelectExactly(ts);
    }
  }

  lemma SelectExactly(ts: seq<Token>)
    ensures Said(ts, 0, "SELECT") ==>
      (AcceptsStatement(Stream(ts, 0)) <==> exists q: G.Select ::
         G.SelectFits(q, true) && G.SelectDepth(q) <= 64 && G.WriteSelect(q, G.End) == Stream(ts, 0))
  {
    hide Stream, G.SelectFits, G.SelectDepth, G.WriteSelect, AcceptsStatement;
    if Said(ts, 0, "SELECT") {
      SaidIs(ts, 0, "SELECT", SELECT);
      AcceptedTree(ts);
      if AcceptsStatement(Stream(ts, 0)) {
        var a: G.Statement :|
          G.StatementFits(a) && G.StatementDepth(a) <= G.MaxDepth && G.WriteStatement(a) == Stream(ts, 0);
        assert a.Query?;
      }
      if exists q: G.Select ::
        G.SelectFits(q, true) && G.SelectDepth(q) <= 64 && G.WriteSelect(q, G.End) == Stream(ts, 0) {
        var q: G.Select :|
          G.SelectFits(q, true) && G.SelectDepth(q) <= 64 && G.WriteSelect(q, G.End) == Stream(ts, 0);
        assert G.StatementFits(G.Query(q)) && G.StatementDepth(G.Query(q)) <= G.MaxDepth;
      }
    }
  }
}
