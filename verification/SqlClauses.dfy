/**
  The words inside the clauses of a query (internal/policy/mysql.go) and the calls, read from the tokens
  as they stand there.
 */
module SqlClauses {
  import opened Ascii
  import opened SqlWords
  import opened SqlTokens
  import opened SqlGrammar
  import opened SqlTheorems
  import opened SqlSpelling

  // ----- Terms --------------------------------------------------------------------------------------------

  lemma ConstantsAreSaid(ts: seq<Token>, i: nat)
    ensures Said(ts, i, "NULL") ==> Stream(ts, i) == WriteScalar(Constant(NULL), Stream(ts, i + 1))
    ensures Said(ts, i, "TRUE") ==> Stream(ts, i) == WriteScalar(Constant(TRUE), Stream(ts, i + 1))
    ensures Said(ts, i, "FALSE") ==> Stream(ts, i) == WriteScalar(Constant(FALSE), Stream(ts, i + 1))
  {
    hide SymbolAt, Stream;
    if i < |ts| {
      TermsSaid(ts, i);
      StreamIs(ts, i);
    }
  }

  lemma NegationIsSaid(ts: seq<Token>, i: nat, j: nat, t: Term)
    requires j <= |ts| && Said(ts, i, "NOT") && Stream(ts, i + 1) == WriteTerm(t, Stream(ts, j))
    ensures Stream(ts, i) == WriteTerm(Negated(t), Stream(ts, j))
  {
    hide Said, Stream;
    SaidIs(ts, i, "NOT", NOT);
  }

  /** Tests of a scalar that ends before token m. */
  lemma TestsAreSaid(ts: seq<Token>, i: nat, m: nat, j: nat, left: Scalar, right: Scalar)
    requires i <= m < j <= |ts| && Stream(ts, i) == WriteScalar(left, Stream(ts, m))
    ensures Said(ts, m, "LIKE") && Stream(ts, m + 1) == WriteScalar(right, Stream(ts, j)) ==>
      Stream(ts, i) == WriteTerm(Like(left, right), Stream(ts, j))
    ensures Said(ts, m, "IS") && Said(ts, m + 1, "NULL") && j == m + 2 ==>
      Stream(ts, i) == WriteTerm(IsNull(left, false), Stream(ts, j))
    ensures Said(ts, m, "IS") && Said(ts, m + 1, "NOT") && Said(ts, m + 2, "NULL") && j == m + 3 ==>
      Stream(ts, i) == WriteTerm(IsNull(left, true), Stream(ts, j))
  {
    hide Said, SymbolAt, Stream, WriteScalar;
    TermsSaid(ts, m);
    StreamIs(ts, m);
    StreamIs(ts, m + 1);
    if j > m + 1 {
      TermsSaid(ts, m + 1);
    }
    if j > m + 2 {
      TermsSaid(ts, m + 2);
      StreamIs(ts, m + 2);
    }
  }

  /** Tokens i to j are IN and a list. */
  ghost predicate IsList(ts: seq<Token>, i: nat, j: nat, items: Scalars)
    requires i + 1 < j <= |ts|
  {
    && Said(ts, i, "IN") && ts[i + 1].kind == LeftParen
    && Stream(ts, i + 2) == WriteScalars(items, Then(Close, Stream(ts, j)))
  }

  lemma ListIsSaid(ts: seq<Token>, i: nat, j: nat, items: Scalars)
    requires i + 1 < j <= |ts| && IsList(ts, i, j, items)
    ensures Stream(ts, i) ==
      Then(Key(IN), Then(Open(Touches(ts, i + 1)), WriteScalars(items, Then(Close, Stream(ts, j)))))
  {
    hide Said, Touches, WriteScalars;
    SaidIs(ts, i, "IN", IN);
  }

  /** Whether a scalar that ends before token m is in a list. */
  lemma MembershipIsSaid(ts: seq<Token>, i: nat, m: nat, j: nat, left: Scalar, items: Scalars)
    requires i <= m && m + 2 < j <= |ts| && Stream(ts, i) == WriteScalar(left, Stream(ts, m))
    ensures IsList(ts, m, j, items) ==>
      Stream(ts, i) == WriteTerm(InList(left, false, Touches(ts, m + 1), items), Stream(ts, j))
    ensures Said(ts, m, "NOT") && IsList(ts, m + 1, j, items) ==>
      Stream(ts, i) == WriteTerm(InList(left, true, Touches(ts, m + 2), items), Stream(ts, j))
  {
    hide Said, IsList, Stream, WriteScalar, WriteScalars, Touches;
    if IsList(ts, m, j, items) {
      ListIsSaid(ts, m, j, items);
    }
    if Said(ts, m, "NOT") && IsList(ts, m + 1, j, items) {
      SaidIs(ts, m, "NOT", NOT);
      ListIsSaid(ts, m + 1, j, items);
    }
  }

  lemma ChainsAreSaid(ts: seq<Token>, i: nat, m: nat, j: nat, t: Term, rest: Condition)
    requires i <= m < j <= |ts| && Stream(ts, i) == WriteTerm(t, Stream(ts, m))
    requires Stream(ts, m + 1) == WriteCondition(rest, Stream(ts, j))
    ensures Said(ts, m, "AND") ==> Stream(ts, i) == WriteCondition(Chain(t, AND, rest), Stream(ts, j))
    ensures Said(ts, m, "OR") ==> Stream(ts, i) == WriteCondition(Chain(t, OR, rest), Stream(ts, j))
  {
    hide Said, SymbolAt, Stream, WriteTerm;
    TermsSaid(ts, m);
    StreamIs(ts, m);
  }

  // ----- Names and directions ---------------------------------------------------------------------------------

  lemma AliasSymbols(name: string, k: Symbols)
    ensures WriteAlias(Worded(name), k) == Then(Key(AS), Then(Name(name), k))
  {
  }

  lemma NameIsSaid(ts: seq<Token>, i: nat)
    requires IsPlainName(ts, i)
    ensures i < |ts| && Stream(ts, i) == Then(Name(ToUpper(ts[i].value)), Stream(ts, i + 1))
  {
    hide Stream, SymbolAt, IsPlainName, ToUpper;
    NameWithin(ts, i);
    NamesSaid(ts, i);
    StreamIs(ts, i);
  }

  lemma AliasIsSaid(ts: seq<Token>, m: nat)
    requires Said(ts, m, "AS") && IsPlainName(ts, m + 1)
    ensures m + 1 < |ts|
    ensures Stream(ts, m) == WriteAlias(Worded(ToUpper(ts[m + 1].value)), Stream(ts, m + 2))
  {
    hide *;
    NameIsSaid(ts, m + 1);
    AsIsSaid(ts, m);
    AliasSymbols(ToUpper(ts[m + 1].value), Stream(ts, m + 2));
  }

  lemma AsIsSaid(ts: seq<Token>, m: nat)
    requires Said(ts, m, "AS")
    ensures m < |ts| && Stream(ts, m) == Then(Key(AS), Stream(ts, m + 1))
  {
    hide Said, Stream;
    SaidIs(ts, m, "AS", AS);
  }

  lemma ItemSymbols(value: Scalar, name: string, k: Symbols)
    ensures WriteItem(Item(value, Some(name)), k) == WriteScalar(value, Then(Key(AS), Then(Name(name), k)))
  {
    hide WriteScalar;
  }

  lemma ItemIsSaid(ts: seq<Token>, i: nat, m: nat, value: Scalar)
    requires i <= m && Said(ts, m, "AS") && IsPlainName(ts, m + 1)
    requires i <= |ts| && m <= |ts| && Stream(ts, i) == WriteScalar(value, Stream(ts, m))
    ensures m + 1 < |ts|
    ensures Stream(ts, i) == WriteItem(Item(value, Some(ToUpper(ts[m + 1].value))), Stream(ts, m + 2))
  {
    hide *;
    NameIsSaid(ts, m + 1);
    AsIsSaid(ts, m);
    ItemSymbols(value, ToUpper(ts[m + 1].value), Stream(ts, m + 2));
  }

  lemma NameWithin(ts: seq<Token>, i: nat)
    requires IsPlainName(ts, i)
    ensures i < |ts|
  {
  }

  lemma DirectionsAreSaid(ts: seq<Token>, i: nat, m: nat, value: Scalar)
    requires i <= m < |ts| && Stream(ts, i) == WriteScalar(value, Stream(ts, m))
    ensures Said(ts, m, "ASC") ==> Stream(ts, i) == WriteKey(OrderKey(value, Some(ASC)), Stream(ts, m + 1))
    ensures Said(ts, m, "DESC") ==> Stream(ts, i) == WriteKey(OrderKey(value, Some(DESC)), Stream(ts, m + 1))
  {
    hide Said, SymbolAt, Stream, WriteScalar;
    ClausesSaid(ts, m);
    NounsSaid(ts, m);
    StreamIs(ts, m);
  }

  // ----- Joins ------------------------------------------------------------------------------------------------

  /** Tokens i to j are the words of a join. */
  predicate IsJoin(ts: seq<Token>, i: nat, j: nat, w: JoinWords) {
    var side := if w.kind.Some? then i + 1 else i;
    var outer := if w.side.Some? then side + 1 else side;
    var join := if w.outer then outer + 1 else outer;
    && (w.kind == Some(CROSS) ==> Said(ts, i, "CROSS")) && (w.kind == Some(INNER) ==> Said(ts, i, "INNER"))
    && (w.side == Some(LEFT) ==> Said(ts, side, "LEFT")) && (w.side == Some(RIGHT) ==> Said(ts, side, "RIGHT"))
    && (w.outer ==> Said(ts, outer, "OUTER")) && Said(ts, join, "JOIN") && j == join + 1
  }

  lemma JoinIsSaid(ts: seq<Token>, i: nat, j: nat, w: JoinWords)
    requires JoinWordsFit(w) && IsJoin(ts, i, j, w)
    ensures i < j <= |ts| && Stream(ts, i) == WriteJoinWords(w, Stream(ts, j))
  {
    hide Said, Stream;
    var side := if w.kind.Some? then i + 1 else i;
    var outer := if w.side.Some? then side + 1 else side;
    var join := if w.outer then outer + 1 else outer;
    SaidIs(ts, join, "JOIN", JOIN);
    if w.outer {
      SaidIs(ts, outer, "OUTER", OUTER);
    }
    SideIsSaid(ts, side, w.side);
    KindIsSaid(ts, i, w.kind);
  }

  lemma SideIsSaid(ts: seq<Token>, i: nat, side: Option<Keyword>)
    requires side.Some? ==> side.value in {LEFT, RIGHT}
    requires side == Some(LEFT) ==> Said(ts, i, "LEFT")
    requires side == Some(RIGHT) ==> Said(ts, i, "RIGHT")
    ensures side.Some? ==> i < |ts| && Stream(ts, i) == Then(Key(side.value), Stream(ts, i + 1))
  {
    hide Said, Stream;
    if side.Some? {
      SaidIs(ts, i, if side.value == LEFT then "LEFT" else "RIGHT", side.value);
    }
  }

  lemma KindIsSaid(ts: seq<Token>, i: nat, kind: Option<Keyword>)
    requires kind.Some? ==> kind.value in {CROSS, INNER}
    requires kind == Some(CROSS) ==> Said(ts, i, "CROSS")
    requires kind == Some(INNER) ==> Said(ts, i, "INNER")
    ensures kind.Some? ==> i < |ts| && Stream(ts, i) == Then(Key(kind.value), Stream(ts, i + 1))
  {
    hide Said, Stream;
    if kind.Some? {
      SaidIs(ts, i, if kind.value == CROSS then "CROSS" else "INNER", kind.value);
    }
  }

  lemma OnIsSaid(ts: seq<Token>, i: nat, j: nat, on: Condition)
    requires j <= |ts| && Said(ts, i, "ON") && Stream(ts, i + 1) == WriteCondition(on, Stream(ts, j))
    ensures Stream(ts, i) == WriteOn(Some(on), Stream(ts, j))
  {
    hide Said, Stream;
    SaidIs(ts, i, "ON", ON);
  }

  // ----- Calls ------------------------------------------------------------------------------------------------

  /** The name of token i, and a parenthesis that touches it. */
  predicate IsCalled(ts: seq<Token>, i: nat, names: set<string>) {
    && i + 1 < |ts| && ts[i].kind == Identifier && ToUpper(ts[i].value) in names
    && ts[i + 1].kind == LeftParen && ts[i].end == ts[i + 1].start
  }

  /** The tokens from i on are a call with its arguments, in front of k. */
  ghost predicate IsCallText(ts: seq<Token>, i: nat, a: Scalar, k: Symbols) {
    match a
    case CountAll =>
      IsCalled(ts, i, {"COUNT"}) && Stream(ts, i + 2) == Then(Symbol.Star, Then(Close, k))
    case Aggregate(_, distinct, c) =>
      && IsCalled(ts, i, {"COUNT", "SUM", "AVG", "MIN", "MAX"})
      && (distinct ==> Said(ts, i + 2, "DISTINCT"))
      && Stream(ts, if distinct then i + 3 else i + 2) == WriteCondition(c, Then(Close, k))
    case Fold(_, x) => IsCalled(ts, i, {"UPPER", "LOWER"}) && Stream(ts, i + 2) == WriteScalar(x, Then(Close, k))
    case Replaced(x, y, z) =>
      && IsCalled(ts, i, {"REPLACE"})
      && Stream(ts, i + 2) ==
         WriteScalar(x, Then(Symbol.Comma, WriteScalar(y, Then(Symbol.Comma, WriteScalar(z, Then(Close, k))))))
    case _ => false
  }

  /** The same call with the function that the name says. */
  function Named(a: Scalar, f: Fn): Scalar {
    match a
    case Aggregate(_, distinct, c) => Aggregate(f, distinct, c)
    case Fold(_, x) => Fold(f, x)
    case _ => a
  }

  lemma CallSeen(ts: seq<Token>, i: nat, names: set<string>)
    requires IsCalled(ts, i, names)
    requires names <= {"COUNT", "SUM", "AVG", "MIN", "MAX", "UPPER", "LOWER", "REPLACE"}
    ensures var name := ToUpper(ts[i].value);
      && FnOf(name).Some? && FnName(FnOf(name).value) == name
      && Stream(ts, i) == Then(Name(name), Then(Open(true), Stream(ts, i + 2)))
  {
    hide KeywordOf, FnOf;
    KnownExactly(ToUpper(ts[i].value));
    NameSeen(ts, i);
  }

  lemma CandidateFits(name: string)
    ensures name in {"COUNT", "SUM", "AVG", "MIN", "MAX"} ==> FnCandidate(name) in {Count, Sum, Avg, Min, Max}
    ensures name in {"UPPER", "LOWER"} ==> FnCandidate(name) in {Upper, Lower}
    ensures name == "COUNT" ==> FnCandidate(name) == Count
    ensures name == "REPLACE" ==> FnCandidate(name) == Replace
  {
  }

  /** A call of a known function is the writing of that call. */
  lemma CallIsSaid(ts: seq<Token>, i: nat, a: Scalar, k: Symbols) returns (f: Fn)
    requires IsCallText(ts, i, a, k)
    ensures i < |ts| && FnName(f) == ToUpper(ts[i].value) && Stream(ts, i) == WriteScalar(Named(a, f), k)
    ensures a.Aggregate? || a.CountAll? ==> f in {Count, Sum, Avg, Min, Max}
    ensures a.Fold? ==> f in {Upper, Lower}
  {
    hide KeywordOf, FnOf, FnName, FnCandidate, Said, IsCalled, Stream, WriteCondition;
    CalledWithin(ts, i, a, k);
    var name := ToUpper(ts[i].value);
    CallSeen(ts, i, {"COUNT", "SUM", "AVG", "MIN", "MAX", "UPPER", "LOWER", "REPLACE"});
    KnownExactly(name);
    CandidateFits(name);
    f := FnOf(name).value;
    if a.Aggregate? && a.distinct {
      SaidIs(ts, i + 2, "DISTINCT", DISTINCT);
    }
    if a.CountAll? || a.Replaced? {
      NamesAre();
    }
  }

  lemma NamesAre()
    ensures FnName(Count) == "COUNT" && FnName(Replace) == "REPLACE"
  {
  }

  lemma CalledWithin(ts: seq<Token>, i: nat, a: Scalar, k: Symbols)
    requires IsCallText(ts, i, a, k)
    ensures i + 1 < |ts| && IsCalled(ts, i, {"COUNT", "SUM", "AVG", "MIN", "MAX", "UPPER", "LOWER", "REPLACE"})
    ensures a.CountAll? ==> ToUpper(ts[i].value) == "COUNT"
    ensures a.Aggregate? ==> ToUpper(ts[i].value) in {"COUNT", "SUM", "AVG", "MIN", "MAX"}
    ensures a.Fold? ==> ToUpper(ts[i].value) in {"UPPER", "LOWER"}
    ensures a.Replaced? ==> ToUpper(ts[i].value) == "REPLACE"
  {
    hide Stream, WriteScalar, WriteCondition, Said;
  }

  /** The arguments of a call fit, and nest so that the call does not nest too deep. */
  predicate ArgumentsFit(a: Scalar) {
    match a
    case Aggregate(_, _, c) => ConditionFits(c, true) && ConditionDepth(c) < 64
    case Fold(_, x) => ScalarFits(x, true, true) && ScalarDepth(x) < 64
    case Replaced(x, y, z) =>
      && ScalarFits(x, true, true) && ScalarFits(y, true, true) && ScalarFits(z, true, true)
      && ScalarDepth(x) < 64 && ScalarDepth(y) < 64 && ScalarDepth(z) < 64
    case _ => true
  }

  lemma NamedFits(ts: seq<Token>, i: nat, a: Scalar, k: Symbols, f: Fn)
    requires IsCallText(ts, i, a, k) && ArgumentsFit(a)
    requires a.Aggregate? || a.CountAll? ==> f in {Count, Sum, Avg, Min, Max}
    requires a.Fold? ==> f in {Upper, Lower}
    ensures ScalarFits(Named(a, f), true, true) && ScalarDepth(Named(a, f)) <= 64
  {
    hide Stream, WriteCondition, WriteScalar, IsCalled;
  }

  /** A SELECT of any known call is accepted if the arguments fit and nest less than 64 deep. */
  lemma CallsAccepted(ts: seq<Token>, a: Scalar)
    requires Said(ts, 0, "SELECT") && IsCallText(ts, 1, a, End) && ArgumentsFit(a)
    ensures AcceptsStatement(Stream(ts, 0))
  {
    hide FnName, Said, IsCallText, Stream, WriteStatement, WriteScalar, AcceptsStatement, ArgumentsFit;
    hide ScalarFits, ScalarDepth, StatementFits, StatementDepth, Named;
    var f := CallIsSaid(ts, 1, a, End);
    NamedFits(ts, 1, a, End, f);
    SaidIs(ts, 0, "SELECT", SELECT);
    OneItem(Named(a, f));
    AcceptedTree(ts);
  }

  lemma OneItem(a: Scalar)
    ensures var clauses := Clauses(None, None, None, None, None);
      var q := Select(false, Listed(LastItem(Item(a, None))), None, clauses);
      && WriteStatement(Query(q)) == Then(Key(SELECT), WriteScalar(a, End))
      && (ScalarFits(a, true, true) ==> StatementFits(Query(q)))
      && StatementDepth(Query(q)) == ScalarDepth(a)
  {
    hide WriteScalar, ScalarFits;
  }
}
