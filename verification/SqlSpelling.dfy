/**
  The words of the language as they stand in a query (internal/policy/mysql.go): which texts are
  reserved, which may be called, and what the tokens of each clause say.
 */
module SqlSpelling {
  import opened Ascii
  import opened SqlWords
  import opened SqlTokens
  import opened SqlGrammar
  import opened SqlTheorems

  // ----- The words -----------------------------------------------------------------------------------

  lemma KeywordIs(w: string, k: Keyword)
    ensures KeywordOf(w) == Some(k) <==> w == Spelling(k)
  {
    hide Spelling;
    SpellingKnown(k);
  }

  const UpToThree: set<string> := {"BY", "OR", "AS", "IS", "ON", "IN", "AND", "ASC", "NOT", "FOR"}
  const OfFour: set<string> :=
    {"FROM", "DESC", "LIKE", "NULL", "TRUE", "JOIN", "LEFT", "INTO", "LOCK", "SHOW", "KEYS", "VIEW", "WITH"}
  const OfFive: set<string> :=
    {"WHERE", "ORDER", "LIMIT", "FALSE", "INNER", "RIGHT", "CROSS", "UNION", "INDEX", "TABLE", "GROUP", "OUTER",
     "USING"}
  const OfSixAndMore: set<string> :=
    {"SELECT", "OFFSET", "TABLES", "FIELDS", "CREATE", "HAVING", "OUTFILE", "COLUMNS", "INDEXES",
     "DUMPFILE", "DESCRIBE", "DISTINCT", "PROCEDURE"}

  /** The words that reservedSQLWord answers true for, by their length. */
  const ReservedWords: set<string> := UpToThree + OfFour + OfFive + OfSixAndMore

  lemma SpelledReserved(k: Keyword)
    ensures Spelling(k) in ReservedWords
  {
    hide Spelling;
    if IsShort(k) {
      ShortReserved(k);
    } else {
      LongReserved(k);
    }
  }

  lemma ShortReserved(k: Keyword)
    requires IsShort(k)
    ensures Spelling(k) in ReservedWords
  {
  }

  lemma LongReserved(k: Keyword)
    requires !IsShort(k)
    ensures Spelling(k) in ReservedWords
  {
  }

  lemma ReservedSpelled(w: string)
    requires w in ReservedWords
    ensures exists k :: Spelling(k) == w
  {
    hide Spelling, Candidate;
    if w in UpToThree {
      UpToThreeSpelled(w);
    } else if w in OfFour {
      OfFourSpelled(w);
    } else if w in OfFive {
      OfFiveSpelled(w);
    } else {
      OfSixAndMoreSpelled(w);
    }
  }

  lemma UpToThreeSpelled(w: string)
    requires w in UpToThree
    ensures Spelling(Candidate(w)) == w
  {
  }

  lemma OfFourSpelled(w: string)
    requires w in OfFour
    ensures Spelling(Candidate(w)) == w
  {
  }

  lemma OfFiveSpelled(w: string)
    requires w in OfFive
    ensures Spelling(Candidate(w)) == w
  {
  }

  lemma OfSixAndMoreSpelled(w: string)
    requires w in OfSixAndMore
    ensures Spelling(Candidate(w)) == w
  {
  }

  lemma ReservedExactly(value: string)
    ensures Reserved(value) <==> ToUpper(value) in ReservedWords
  {
    hide Spelling, KeywordOf, ReservedWords;
    var w := ToUpper(value);
    if KeywordOf(w).Some? {
      var k := KeywordOf(w).value;
      KeywordIs(w, k);
      SpelledReserved(k);
    }
    if w in ReservedWords {
      ReservedSpelled(w);
      var k :| Spelling(k) == w;
      KeywordIs(w, k);
    }
  }

  lemma KnownExactly(w: string)
    ensures FnOf(w).Some? <==> w in {"COUNT", "SUM", "AVG", "MIN", "MAX", "UPPER", "LOWER", "REPLACE"}
    ensures w in {"COUNT", "SUM", "AVG", "MIN", "MAX", "UPPER", "LOWER", "REPLACE"} ==>
      FnOf(w) == Some(FnCandidate(w)) && KeywordOf(w).None?
  {
    hide Spelling, KeywordOf, FnOf, ReservedWords, FnCandidate;
    if FnOf(w).Some? {
      NameIs(FnOf(w).value);
    }
    if w in {"COUNT", "SUM", "AVG", "MIN", "MAX", "UPPER", "LOWER", "REPLACE"} {
      CandidateIs(w);
      FnNameKnown(FnCandidate(w));
      if KeywordOf(w).Some? {
        NoneReserved(FnCandidate(w), KeywordOf(w).value);
      }
    }
  }

  lemma NameIs(f: Fn)
    ensures FnName(f) in {"COUNT", "SUM", "AVG", "MIN", "MAX", "UPPER", "LOWER", "REPLACE"}
  {
  }

  lemma CandidateIs(w: string)
    requires w in {"COUNT", "SUM", "AVG", "MIN", "MAX", "UPPER", "LOWER", "REPLACE"}
    ensures FnName(FnCandidate(w)) == w
  {
  }

  lemma NoneReserved(f: Fn, k: Keyword)
    ensures FnName(f) != Spelling(k)
  {
  }

  // ----- What the tokens of a query say -------------------------------------------------------------------

  /** Token i is this word, in letters of either case. */
  predicate Said(ts: seq<Token>, i: nat, word: string) {
    i < |ts| && ts[i].kind == Identifier && ToUpper(ts[i].value) == word
  }

  /** Token i is a word that is not reserved. */
  predicate IsPlainName(ts: seq<Token>, i: nat) {
    i < |ts| && ts[i].kind == Identifier && ToUpper(ts[i].value) !in ReservedWords
  }

  predicate IsLiteral(ts: seq<Token>, i: nat) {
    i < |ts| && (ts[i].kind == StringText || ts[i].kind == Kind.Pattern)
  }

  lemma KeySaid(ts: seq<Token>, i: nat, word: string, k: Keyword)
    requires i < |ts| && Spelling(k) == word
    ensures Said(ts, i, word) <==> SymbolAt(ts, i) == Key(k)
  {
    hide Spelling, KeywordOf;
    KeywordIs(ToUpper(ts[i].value), k);
  }

  /** What is said in a query is what the reader sees. */
  lemma ListsSaid(ts: seq<Token>, i: nat)
    requires i < |ts|
    ensures Said(ts, i, "SHOW") <==> SymbolAt(ts, i) == Key(SHOW)
    ensures Said(ts, i, "TABLES") <==> SymbolAt(ts, i) == Key(TABLES)
    ensures Said(ts, i, "COLUMNS") <==> SymbolAt(ts, i) == Key(COLUMNS)
    ensures Said(ts, i, "FIELDS") <==> SymbolAt(ts, i) == Key(FIELDS)
    ensures Said(ts, i, "INDEX") <==> SymbolAt(ts, i) == Key(INDEX)
    ensures Said(ts, i, "INDEXES") <==> SymbolAt(ts, i) == Key(INDEXES)
    ensures Said(ts, i, "KEYS") <==> SymbolAt(ts, i) == Key(KEYS)
  {
    hide Said, SymbolAt;
    KeySaid(ts, i, "SHOW", SHOW);
    KeySaid(ts, i, "TABLES", TABLES);
    KeySaid(ts, i, "COLUMNS", COLUMNS);
    KeySaid(ts, i, "FIELDS", FIELDS);
    KeySaid(ts, i, "INDEX", INDEX);
    KeySaid(ts, i, "INDEXES", INDEXES);
    KeySaid(ts, i, "KEYS", KEYS);
  }

  lemma NounsSaid(ts: seq<Token>, i: nat)
    requires i < |ts|
    ensures Said(ts, i, "CREATE") <==> SymbolAt(ts, i) == Key(CREATE)
    ensures Said(ts, i, "TABLE") <==> SymbolAt(ts, i) == Key(TABLE)
    ensures Said(ts, i, "VIEW") <==> SymbolAt(ts, i) == Key(VIEW)
    ensures Said(ts, i, "DESCRIBE") <==> SymbolAt(ts, i) == Key(DESCRIBE)
    ensures Said(ts, i, "DESC") <==> SymbolAt(ts, i) == Key(DESC)
  {
    hide Said, SymbolAt;
    KeySaid(ts, i, "CREATE", CREATE);
    KeySaid(ts, i, "TABLE", TABLE);
    KeySaid(ts, i, "VIEW", VIEW);
    KeySaid(ts, i, "DESCRIBE", DESCRIBE);
    KeySaid(ts, i, "DESC", DESC);
  }

  lemma ClausesSaid(ts: seq<Token>, i: nat)
    requires i < |ts|
    ensures Said(ts, i, "SELECT") <==> SymbolAt(ts, i) == Key(SELECT)
    ensures Said(ts, i, "DISTINCT") <==> SymbolAt(ts, i) == Key(DISTINCT)
    ensures Said(ts, i, "FROM") <==> SymbolAt(ts, i) == Key(FROM)
    ensures Said(ts, i, "WHERE") <==> SymbolAt(ts, i) == Key(WHERE)
    ensures Said(ts, i, "GROUP") <==> SymbolAt(ts, i) == Key(GROUP)
    ensures Said(ts, i, "BY") <==> SymbolAt(ts, i) == Key(BY)
    ensures Said(ts, i, "HAVING") <==> SymbolAt(ts, i) == Key(HAVING)
    ensures Said(ts, i, "ORDER") <==> SymbolAt(ts, i) == Key(ORDER)
    ensures Said(ts, i, "LIMIT") <==> SymbolAt(ts, i) == Key(LIMIT)
    ensures Said(ts, i, "OFFSET") <==> SymbolAt(ts, i) == Key(OFFSET)
    ensures Said(ts, i, "ASC") <==> SymbolAt(ts, i) == Key(ASC)
    ensures Said(ts, i, "AS") <==> SymbolAt(ts, i) == Key(AS)
  {
    hide Said, SymbolAt;
    KeySaid(ts, i, "SELECT", SELECT);
    KeySaid(ts, i, "DISTINCT", DISTINCT);
    KeySaid(ts, i, "FROM", FROM);
    KeySaid(ts, i, "WHERE", WHERE);
    KeySaid(ts, i, "GROUP", GROUP);
    KeySaid(ts, i, "BY", BY);
    KeySaid(ts, i, "HAVING", HAVING);
    KeySaid(ts, i, "ORDER", ORDER);
    KeySaid(ts, i, "LIMIT", LIMIT);
    KeySaid(ts, i, "OFFSET", OFFSET);
    KeySaid(ts, i, "ASC", ASC);
    KeySaid(ts, i, "AS", AS);
  }

  lemma TermsSaid(ts: seq<Token>, i: nat)
    requires i < |ts|
    ensures Said(ts, i, "AND") <==> SymbolAt(ts, i) == Key(AND)
    ensures Said(ts, i, "OR") <==> SymbolAt(ts, i) == Key(OR)
    ensures Said(ts, i, "NOT") <==> SymbolAt(ts, i) == Key(NOT)
    ensures Said(ts, i, "LIKE") <==> SymbolAt(ts, i) == Key(LIKE)
    ensures Said(ts, i, "IS") <==> SymbolAt(ts, i) == Key(IS)
    ensures Said(ts, i, "NULL") <==> SymbolAt(ts, i) == Key(NULL)
    ensures Said(ts, i, "TRUE") <==> SymbolAt(ts, i) == Key(TRUE)
    ensures Said(ts, i, "FALSE") <==> SymbolAt(ts, i) == Key(FALSE)
    ensures Said(ts, i, "IN") <==> SymbolAt(ts, i) == Key(IN)
  {
    hide Said, SymbolAt;
    KeySaid(ts, i, "AND", AND);
    KeySaid(ts, i, "OR", OR);
    KeySaid(ts, i, "NOT", NOT);
    KeySaid(ts, i, "LIKE", LIKE);
    KeySaid(ts, i, "IS", IS);
    KeySaid(ts, i, "NULL", NULL);
    KeySaid(ts, i, "TRUE", TRUE);
    KeySaid(ts, i, "FALSE", FALSE);
    KeySaid(ts, i, "IN", IN);
  }

  lemma OthersSaid(ts: seq<Token>, i: nat)
    requires i < |ts|
    ensures Said(ts, i, "UNION") <==> SymbolAt(ts, i) == Key(UNION)
    ensures Said(ts, i, "INTO") <==> SymbolAt(ts, i) == Key(INTO)
    ensures Said(ts, i, "OUTFILE") <==> SymbolAt(ts, i) == Key(OUTFILE)
    ensures Said(ts, i, "DUMPFILE") <==> SymbolAt(ts, i) == Key(DUMPFILE)
    ensures Said(ts, i, "FOR") <==> SymbolAt(ts, i) == Key(FOR)
    ensures Said(ts, i, "LOCK") <==> SymbolAt(ts, i) == Key(LOCK)
    ensures Said(ts, i, "PROCEDURE") <==> SymbolAt(ts, i) == Key(PROCEDURE)
    ensures Said(ts, i, "USING") <==> SymbolAt(ts, i) == Key(USING)
    ensures Said(ts, i, "WITH") <==> SymbolAt(ts, i) == Key(WITH)
  {
    hide Said, SymbolAt;
    KeySaid(ts, i, "UNION", UNION);
    KeySaid(ts, i, "INTO", INTO);
    KeySaid(ts, i, "OUTFILE", OUTFILE);
    KeySaid(ts, i, "DUMPFILE", DUMPFILE);
    KeySaid(ts, i, "FOR", FOR);
    KeySaid(ts, i, "LOCK", LOCK);
    KeySaid(ts, i, "PROCEDURE", PROCEDURE);
    KeySaid(ts, i, "USING", USING);
    KeySaid(ts, i, "WITH", WITH);
  }

  lemma NamesSaid(ts: seq<Token>, i: nat)
    requires i < |ts|
    ensures IsPlainName(ts, i) <==> SymbolAt(ts, i).Name?
    ensures IsPlainName(ts, i) ==> SymbolAt(ts, i) == Name(ToUpper(ts[i].value))
    ensures IsLiteral(ts, i) <==> SymbolAt(ts, i).Text? || SymbolAt(ts, i).Pattern?
  {
    hide ReservedWords, KeywordOf;
    ReservedExactly(ts[i].value);
  }

  // ----- SHOW and DESCRIBE -----------------------------------------------------------------------------------

  /** FROM or IN, and the name of a table. */
  predicate IsOfTable(ts: seq<Token>, i: nat) {
    (Said(ts, i, "FROM") || Said(ts, i, "IN")) && IsPlainName(ts, i + 1)
  }

  predicate IsShow(ts: seq<Token>) {
    Said(ts, 0, "SHOW") &&
    match |ts|
    case 2 => Said(ts, 1, "TABLES")
    case 4 =>
      || (Said(ts, 1, "TABLES") && Said(ts, 2, "LIKE") && IsLiteral(ts, 3))
      || ((Said(ts, 1, "COLUMNS") || Said(ts, 1, "FIELDS")) && IsOfTable(ts, 2))
      || ((Said(ts, 1, "INDEX") || Said(ts, 1, "INDEXES") || Said(ts, 1, "KEYS")) && IsOfTable(ts, 2))
      || (Said(ts, 1, "CREATE") && (Said(ts, 2, "TABLE") || Said(ts, 2, "VIEW")) && IsPlainName(ts, 3))
    case 6 =>
      && (Said(ts, 1, "COLUMNS") || Said(ts, 1, "FIELDS")) && IsOfTable(ts, 2)
      && Said(ts, 4, "LIKE") && IsLiteral(ts, 5)
    case _ => false
  }

  predicate IsDescribe(ts: seq<Token>) {
    && (Said(ts, 0, "DESCRIBE") || Said(ts, 0, "DESC")) && IsPlainName(ts, 1)
    && (|ts| == 2 || (|ts| == 3 && (IsPlainName(ts, 2) || IsLiteral(ts, 2))))
  }

  lemma SaidWithin(ts: seq<Token>, i: nat, word: string)
    requires Said(ts, i, word)
    ensures i < |ts|
  {
  }

  lemma AcceptedTree(ts: seq<Token>)
    ensures AcceptsStatement(Stream(ts, 0)) <==>
      exists a: Statement :: StatementFits(a) && StatementDepth(a) <= MaxDepth && WriteStatement(a) == Stream(ts, 0)
  {
    StatementsExactly(Stream(ts, 0));
  }

  lemma StreamIs(ts: seq<Token>, i: nat)
    requires i <= |ts|
    ensures Stream(ts, i) == if i == |ts| then End else Then(SymbolAt(ts, i), Stream(ts, i + 1))
  {
  }

  /** The rest of a short query from token i on. */
  function Rest(ts: seq<Token>, i: nat): Symbols
    requires i <= |ts|
  {
    if i == |ts| then End
    else Then(SymbolAt(ts, i), if i + 1 == |ts| then End else Then(SymbolAt(ts, i + 1), Stream(ts, i + 2)))
  }

  lemma ShortStream(ts: seq<Token>)
    requires 2 <= |ts| <= 6
    ensures Stream(ts, 0) == Then(SymbolAt(ts, 0), Then(SymbolAt(ts, 1), Rest(ts, 2)))
    ensures |ts| >= 4 ==> Rest(ts, 2) == Then(SymbolAt(ts, 2), Then(SymbolAt(ts, 3), Rest(ts, 4)))
    ensures |ts| == 6 ==> Rest(ts, 4) == Then(SymbolAt(ts, 4), Then(SymbolAt(ts, 5), End))
  {
    hide SymbolAt, Stream;
    for i := 0 to |ts|
      invariant forall j | 0 <= j < i :: Stream(ts, j) == Then(SymbolAt(ts, j), Stream(ts, j + 1))
    {
      StreamIs(ts, i);
    }
    StreamIs(ts, |ts|);
  }

  function LiteralAt(ts: seq<Token>, i: nat): Literal
    requires i < |ts|
  {
    if ts[i].kind == StringText then Quoted(ts[i].value) else Unquoted(ts[i].value)
  }

  lemma LiteralSaid(ts: seq<Token>, i: nat)
    requires IsLiteral(ts, i)
    ensures WriteLiteral(LiteralAt(ts, i), End) == Then(SymbolAt(ts, i), End)
  {
  }

  /** The statement of a query that begins with SHOW. */
  function ShowTree(ts: seq<Token>): Statement {
    var name := if |ts| > 3 then ToUpper(ts[3].value) else "";
    if Said(ts, 1, "TABLES") then ShowTables(if |ts| > 3 then Some(LiteralAt(ts, 3)) else None)
    else if Said(ts, 1, "CREATE") then ShowCreate(if Said(ts, 2, "TABLE") then TABLE else VIEW, name)
    else
      var preposition := if Said(ts, 2, "FROM") then FROM else IN;
      if Said(ts, 1, "COLUMNS") || Said(ts, 1, "FIELDS") then
        ShowColumns(if Said(ts, 1, "COLUMNS") then COLUMNS else FIELDS, preposition, name,
                    if |ts| > 5 then Some(LiteralAt(ts, 5)) else None)
      else
        ShowIndex(if Said(ts, 1, "INDEX") then INDEX else if Said(ts, 1, "INDEXES") then INDEXES else KEYS,
                  preposition, name)
  }

  lemma ShowComplete(ts: seq<Token>)
    requires IsShow(ts)
    ensures StatementFits(ShowTree(ts)) && !ShowTree(ts).Query? && WriteStatement(ShowTree(ts)) == Stream(ts, 0)
  {
    hide Said, SymbolAt, IsPlainName, IsLiteral, Stream, WriteLiteral, LiteralAt;
    ShortStream(ts);
    ListsSaid(ts, 0);
    ListsSaid(ts, 1);
    NounsSaid(ts, 1);
    if |ts| >= 4 {
      ClausesSaid(ts, 2);
      TermsSaid(ts, 2);
      NounsSaid(ts, 2);
      NamesSaid(ts, 3);
      if IsLiteral(ts, 3) {
        LiteralSaid(ts, 3);
      }
    }
    if |ts| == 6 {
      TermsSaid(ts, 4);
      LiteralSaid(ts, 5);
    }
  }

  lemma LiteralSeen(ts: seq<Token>, i: nat, l: Literal)
    requires i <= |ts| && Stream(ts, i) == WriteLiteral(l, End)
    ensures i + 1 == |ts| && IsLiteral(ts, i)
  {
    StreamIs(ts, i);
    StreamIs(ts, i + 1);
  }

  lemma ShowSound(ts: seq<Token>, a: Statement)
    requires StatementFits(a) && WriteStatement(a) == Stream(ts, 0) && Said(ts, 0, "SHOW")
    ensures IsShow(ts)
  {
    hide Said, SymbolAt, IsPlainName, IsLiteral, Stream, WriteLiteral, WriteSelect;
    SaidWithin(ts, 0, "SHOW");
    StreamIs(ts, 0);
    ListsSaid(ts, 0);
    SelectStarts(a);
    StreamIs(ts, 1);
    ListsSaid(ts, 1);
    NounsSaid(ts, 1);
    StreamIs(ts, 2);
    if |ts| > 2 {
      ClausesSaid(ts, 2);
      TermsSaid(ts, 2);
      NounsSaid(ts, 2);
      StreamIs(ts, 3);
      if a.ShowTables? {
        LiteralSeen(ts, 3, a.like.value);
      } else {
        NamesSaid(ts, 3);
        StreamIs(ts, 4);
        if |ts| > 4 {
          TermsSaid(ts, 4);
          LiteralSeen(ts, 5, a.like.value);
        }
      }
    }
  }

  lemma SelectStarts(a: Statement)
    ensures a.Query? ==> WriteStatement(a).Then? && WriteStatement(a).head == Key(SELECT)
  {
  }

  /** What may follow SHOW, word by word. */
  lemma ShowExactly(ts: seq<Token>)
    requires Said(ts, 0, "SHOW")
    ensures AcceptsStatement(Stream(ts, 0)) <==> IsShow(ts)
  {
    hide *;
    AcceptedTree(ts);
    if AcceptsStatement(Stream(ts, 0)) {
      var a: Statement :|
        StatementFits(a) && StatementDepth(a) <= MaxDepth && WriteStatement(a) == Stream(ts, 0);
      ShowSound(ts, a);
    }
    if IsShow(ts) {
      ShowComplete(ts);
      NoDepth(ShowTree(ts));
    }
  }

  lemma NoDepth(a: Statement)
    ensures !a.Query? ==> StatementDepth(a) <= MaxDepth
  {
  }

  function DescribeTree(ts: seq<Token>): Statement
    requires IsDescribe(ts)
  {
    Describe(if Said(ts, 0, "DESC") then DESC else DESCRIBE, ToUpper(ts[1].value),
             if |ts| == 2 then NoSubject
             else if IsPlainName(ts, 2) then Field(ToUpper(ts[2].value))
             else Matching(LiteralAt(ts, 2)))
  }

  lemma DescribeComplete(ts: seq<Token>)
    requires IsDescribe(ts)
    ensures StatementFits(DescribeTree(ts)) && WriteStatement(DescribeTree(ts)) == Stream(ts, 0)
  {
    hide Said, SymbolAt, IsPlainName, IsLiteral, Stream, WriteLiteral, LiteralAt;
    StreamIs(ts, 0);
    StreamIs(ts, 1);
    StreamIs(ts, 2);
    NounsSaid(ts, 0);
    NamesSaid(ts, 1);
    if |ts| == 3 {
      StreamIs(ts, 3);
      NamesSaid(ts, 2);
      if IsLiteral(ts, 2) {
        LiteralSaid(ts, 2);
      }
    }
  }

  lemma DescribeSound(ts: seq<Token>, a: Statement)
    requires StatementFits(a) && WriteStatement(a) == Stream(ts, 0)
    requires Said(ts, 0, "DESCRIBE") || Said(ts, 0, "DESC")
    ensures IsDescribe(ts)
  {
    hide Said, SymbolAt, IsPlainName, IsLiteral, Stream, WriteLiteral, WriteSelect;
    SaidWithin(ts, 0, if Said(ts, 0, "DESC") then "DESC" else "DESCRIBE");
    StreamIs(ts, 0);
    NounsSaid(ts, 0);
    SelectStarts(a);
    StreamIs(ts, 1);
    NamesSaid(ts, 1);
    StreamIs(ts, 2);
    if a.subject.Field? {
      NamesSaid(ts, 2);
      StreamIs(ts, 3);
    } else if a.subject.Matching? {
      LiteralSeen(ts, 2, a.subject.literal);
    }
  }

  /** What may follow DESCRIBE or DESC. */
  lemma DescribeExactly(ts: seq<Token>)
    requires Said(ts, 0, "DESCRIBE") || Said(ts, 0, "DESC")
    ensures AcceptsStatement(Stream(ts, 0)) <==> IsDescribe(ts)
  {
    hide *;
    AcceptedTree(ts);
    if AcceptsStatement(Stream(ts, 0)) {
      var a: Statement :|
        StatementFits(a) && StatementDepth(a) <= MaxDepth && WriteStatement(a) == Stream(ts, 0);
      DescribeSound(ts, a);
    }
    if IsDescribe(ts) {
      DescribeComplete(ts);
      DescribeIs(ts);
      NoDepth(DescribeTree(ts));
    }
  }

  lemma DescribeIs(ts: seq<Token>)
    requires IsDescribe(ts)
    ensures DescribeTree(ts).Describe?
  {
  }

  /** The four words that a statement begins with. */
  lemma FirstWord(ts: seq<Token>)
    requires AcceptsStatement(Stream(ts, 0))
    ensures Said(ts, 0, "SELECT") || Said(ts, 0, "SHOW") || Said(ts, 0, "DESCRIBE") || Said(ts, 0, "DESC")
  {
    hide Said, SymbolAt, Stream, WriteSelect, AcceptsStatement;
    AcceptedTree(ts);
    var a: Statement :| StatementFits(a) && StatementDepth(a) <= MaxDepth && WriteStatement(a) == Stream(ts, 0);
    SelectStarts(a);
    StreamIs(ts, 0);
    ListsSaid(ts, 0);
    NounsSaid(ts, 0);
    ClausesSaid(ts, 0);
  }

  // ----- SELECT -----------------------------------------------------------------------------------------------

  /** Tokens i to j are the word and a condition, or nothing. */
  ghost predicate IsConditionClause(ts: seq<Token>, i: nat, j: nat, word: string, c: Option<Condition>)
    requires i <= j <= |ts|
  {
    if c.None? then i == j else Said(ts, i, word) && Stream(ts, i + 1) == WriteCondition(c.value, Stream(ts, j))
  }

  /** Tokens i to j are the word, BY, and a list of keys, or nothing. */
  ghost predicate IsOrderClause(ts: seq<Token>, i: nat, j: nat, word: string, o: Option<Order>)
    requires i <= j <= |ts|
  {
    if o.None? then i == j
    else Said(ts, i, word) && Said(ts, i + 1, "BY") && Stream(ts, i + 2) == WriteOrder(o.value, Stream(ts, j))
  }

  ghost predicate IsTablesClause(ts: seq<Token>, i: nat, j: nat, t: Option<Tables>)
    requires i <= j <= |ts|
  {
    if t.None? then i == j
    else
      Said(ts, i, "FROM") && Stream(ts, i + 1) == WriteTable(t.value.first, WriteJoins(t.value.joins, Stream(ts, j)))
  }

  /** The limit up to the end of the query, with or without its offset. */
  predicate IsLimitClause(ts: seq<Token>, i: nat, l: Option<Limit>)
    requires i <= |ts|
  {
    match l
    case None => i == |ts|
    case Some(Limit(n, None)) => Said(ts, i, "LIMIT") && i + 2 == |ts| && SymbolAt(ts, i + 1) == Num(n)
    case Some(Limit(n, Some(m))) =>
      && Said(ts, i, "LIMIT") && i + 4 == |ts| && SymbolAt(ts, i + 1) == Num(n)
      && Said(ts, i + 2, "OFFSET") && SymbolAt(ts, i + 3) == Num(m)
    case Some(Range(m, n)) =>
      && Said(ts, i, "LIMIT") && i + 4 == |ts| && SymbolAt(ts, i + 1) == Num(m)
      && SymbolAt(ts, i + 2) == Symbol.Comma && SymbolAt(ts, i + 3) == Num(n)
  }

  /** Where the parts of a SELECT begin. */
  datatype Cuts = Cuts(selection: nat, tables: nat, filter: nat, grouping: nat, having: nat, order: nat, limit: nat)

  /** The tokens of a SELECT, clause by clause. */
  ghost predicate IsSelect(ts: seq<Token>, q: Select, cuts: Cuts) {
    && cuts.selection <= cuts.tables <= cuts.filter <= cuts.grouping <= cuts.having <= cuts.order <= cuts.limit <= |ts|
    && Said(ts, 0, "SELECT")
    && (if q.distinct then Said(ts, 1, "DISTINCT") && cuts.selection == 2 else cuts.selection == 1)
    && Stream(ts, cuts.selection) == WriteSelection(q.selection, Stream(ts, cuts.tables))
    && IsTablesClause(ts, cuts.tables, cuts.filter, q.tables)
    && IsConditionClause(ts, cuts.filter, cuts.grouping, "WHERE", q.clauses.filter)
    && IsOrderClause(ts, cuts.grouping, cuts.having, "GROUP", q.clauses.grouping)
    && IsConditionClause(ts, cuts.having, cuts.order, "HAVING", q.clauses.having)
    && IsOrderClause(ts, cuts.order, cuts.limit, "ORDER", q.clauses.order)
    && IsLimitClause(ts, cuts.limit, q.clauses.limit)
  }

  lemma SaidIs(ts: seq<Token>, i: nat, word: string, k: Keyword)
    requires Said(ts, i, word) && Spelling(k) == word
    ensures i < |ts| && Stream(ts, i) == Then(Key(k), Stream(ts, i + 1))
  {
    hide Spelling, SymbolAt;
    KeySaid(ts, i, word, k);
  }

  lemma ConditionClauseSaid(ts: seq<Token>, i: nat, j: nat, word: string, k: Keyword, c: Option<Condition>)
    requires i <= j <= |ts| && IsConditionClause(ts, i, j, word, c) && Spelling(k) == word
    ensures Stream(ts, i) == WriteConditionClause(k, c, Stream(ts, j))
  {
    hide Spelling, Said, Stream, WriteCondition;
    if c.Some? {
      SaidIs(ts, i, word, k);
    }
  }

  lemma OrderClauseSaid(ts: seq<Token>, i: nat, j: nat, word: string, k: Keyword, o: Option<Order>)
    requires i <= j <= |ts| && IsOrderClause(ts, i, j, word, o) && Spelling(k) == word
    ensures Stream(ts, i) == WriteOrderClause(k, o, Stream(ts, j))
  {
    hide Said, Stream, WriteOrder;
    if o.Some? {
      SaidIs(ts, i, word, k);
      SaidIs(ts, i + 1, "BY", BY);
    }
  }

  lemma TablesClauseSaid(ts: seq<Token>, i: nat, j: nat, t: Option<Tables>)
    requires i <= j <= |ts| && IsTablesClause(ts, i, j, t)
    ensures Stream(ts, i) == WriteFrom(t, Stream(ts, j))
  {
    hide Said, Stream, WriteTable, WriteJoins;
    if t.Some? {
      SaidIs(ts, i, "FROM", FROM);
    }
  }

  lemma LimitClauseSaid(ts: seq<Token>, i: nat, l: Option<Limit>)
    requires i <= |ts| && IsLimitClause(ts, i, l)
    ensures Stream(ts, i) == WriteOptionalLimit(l, End)
  {
    hide Said, SymbolAt, Stream;
    if l.Some? {
      SaidIs(ts, i, "LIMIT", LIMIT);
      StreamIs(ts, i + 1);
      StreamIs(ts, i + 2);
      if i + 2 < |ts| {
        StreamIs(ts, i + 3);
        StreamIs(ts, i + 4);
        if l.value.Limit? {
          SaidIs(ts, i + 2, "OFFSET", OFFSET);
        }
      }
    } else {
      StreamIs(ts, i);
    }
  }

  lemma ClausesAreSaid(ts: seq<Token>, q: Select, cuts: Cuts)
    requires IsSelect(ts, q, cuts)
    ensures Stream(ts, cuts.filter) == WriteClauses(q.clauses, End)
  {
    hide Said, Stream, IsConditionClause, IsOrderClause, IsTablesClause, IsLimitClause, WriteSelection;
    hide WriteConditionClause, WriteOrderClause, WriteOptionalLimit;
    ConditionClauseSaid(ts, cuts.filter, cuts.grouping, "WHERE", WHERE, q.clauses.filter);
    OrderClauseSaid(ts, cuts.grouping, cuts.having, "GROUP", GROUP, q.clauses.grouping);
    ConditionClauseSaid(ts, cuts.having, cuts.order, "HAVING", HAVING, q.clauses.having);
    OrderClauseSaid(ts, cuts.order, cuts.limit, "ORDER", ORDER, q.clauses.order);
    LimitClauseSaid(ts, cuts.limit, q.clauses.limit);
  }

  lemma SelectIsSaid(ts: seq<Token>, q: Select, cuts: Cuts)
    requires IsSelect(ts, q, cuts)
    ensures Stream(ts, 0) == WriteSelect(q, End)
  {
    hide Said, Stream, IsConditionClause, IsOrderClause, IsTablesClause, IsLimitClause, WriteSelection;
    hide WriteFrom, WriteClauses;
    ClausesAreSaid(ts, q, cuts);
    TablesClauseSaid(ts, cuts.tables, cuts.filter, q.tables);
    SaidIs(ts, 0, "SELECT", SELECT);
    if q.distinct {
      SaidIs(ts, 1, "DISTINCT", DISTINCT);
    }
  }

  /** Every query whose tokens are those of a SELECT, clause by clause, is accepted. */
  lemma SelectAccepted(ts: seq<Token>, q: Select, cuts: Cuts)
    requires IsSelect(ts, q, cuts) && SelectFits(q, true) && SelectDepth(q) <= 64
    ensures AcceptsStatement(Stream(ts, 0))
  {
    hide IsSelect, SelectFits, SelectDepth, WriteSelect, AcceptsStatement, Stream;
    SelectIsSaid(ts, q, cuts);
    AcceptedTree(ts);
    assert StatementFits(Query(q)) && StatementDepth(Query(q)) <= MaxDepth;
  }
}
