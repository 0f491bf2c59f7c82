/**
  The recursive-descent reader of internal/policy/mysql.go, with its moving index and its depth
  counter. Each method answers what the function of the same name in SqlReading answers, moves the
  index over the symbols that function consumes, and leaves the depth as it found it.
 */
module SqlParser {
  import opened Ascii
  import opened SqlWords
  import opened SqlGrammar
  import opened SqlReading
  import opened T = SqlTokens

  /** Do the symbols start with one that a token of this kind stands for? */
  predicate HasKind(s: Symbols, kind: Kind) {
    && s.Then?
    && match kind
       case Identifier => s.head.Key? || s.head.Name?
       case Number => s.head.Num?
       case StringText => s.head.Text?
       case Comma => s.head.Comma?
       case LeftParen => s.head.Open?
       case RightParen => s.head.Close?
       case Star => s.head.Star?
       case Dot => s.head.Dot?
       case Comparison => s.head.Compare?
       case Pattern => s.head.Pattern?
  }

  class Parser {
    const tokens: seq<Token>
    const extended: bool
    ghost const symbols: Symbols
    var index: nat
    var depth: nat

    ghost predicate Valid()
      reads this
    {
      index <= |tokens| && depth <= MaxDepth && symbols == Stream(tokens, 0)
    }

    /** The symbols still to be read. */
    ghost function Left(): Symbols
      reads this
    {
      Drop(symbols, index)
    }

    /** The symbols from here on, seen through the tokens. */
    lemma Here()
      requires Valid()
      ensures Left() == Stream(tokens, index)
      ensures index < |tokens| ==> Left() == Then(SymbolAt(tokens, index), Drop(symbols, index + 1))
    {
      DropStream(tokens, 0, index);
      if index < |tokens| {
        DropStream(tokens, 0, index + 1);
      }
    }

    constructor (tokens: seq<Token>, extended: bool)
      ensures Valid() && this.tokens == tokens && this.extended == extended && index == 0 && depth == 0
      ensures Left() == Stream(tokens, 0)
    {
      this.tokens, this.extended, index, depth := tokens, extended, 0, 0;
      symbols := Stream(tokens, 0);
    }

    lemma EndHere()
      requires Valid()
      ensures AtEnd() <==> Left().End?
    {
      Here();
    }

    // ----- Single tokens -----------------------------------------------------------------------

    predicate CurrentKind(kind: Kind)
      reads this
      requires index <= |tokens|
    {
      index < |tokens| && tokens[index].kind == kind
    }

    predicate AtEnd()
      reads this
    {
      index == |tokens|
    }

    method TakeKind(kind: Kind) returns (ok: bool)
      requires Valid()
      modifies this`index
      ensures Valid() && ok == old(CurrentKind(kind)) && ok == HasKind(old(Left()), kind)
      ensures index == old(index) + if ok then 1 else 0
      ensures ok ==> Left() == old(Left()).tail
    {
      ok := CurrentKind(kind);
      Here();
      if ok {
        index := index + 1;
      }
    }

    lemma KeywordHere(k: Keyword)
      requires Valid()
      ensures (CurrentKind(Identifier) && EqualFold(tokens[index].value, Spelling(k))) <==> IsKey(Left(), k)
      ensures IsKey(Left(), k) ==> Left().tail == Drop(symbols, index + 1)
    {
      Here();
      if index < |tokens| {
        KeywordSeen(tokens, index, k);
      }
    }

    method TakeKeyword(k: Keyword) returns (ok: bool)
      requires Valid()
      modifies this`index
      ensures Valid() && ok == IsKey(old(Left()), k)
      ensures index == old(index) + if ok then 1 else 0
      ensures ok ==> Left() == old(Left()).tail
    {
      ok := CurrentKind(Identifier) && EqualFold(tokens[index].value, Spelling(k));
      KeywordHere(k);
      if ok {
        index := index + 1;
      }
    }

    method TakeIdentifier() returns (ok: bool)
      requires Valid()
      modifies this`index
      ensures Valid() && ok == IsName(old(Left()))
      ensures index == old(index) + if ok then 1 else 0
      ensures ok ==> Left() == old(Left()).tail
    {
      ok := CurrentKind(Identifier) && !Reserved(tokens[index].value);
      Here();
      if ok {
        index := index + 1;
      }
    }

    // ----- Scalars -------------------------------------------------------------------------------

    method Scalar(allowLiteral: bool) returns (ok: bool)
      requires Valid()
      modifies this
      ensures Valid() && depth == old(depth) && old(index) <= index && (ok ==> old(index) < index)
      ensures var r := ReadScalar(old(Left()), extended, allowLiteral, depth);
        ok == r.Done? && (ok ==> Left() == r.rest)
      decreases |tokens| - index, 1
    {
      depth := depth + 1;
      ok := false;
      label body: {
        if depth > MaxDepth {
          break body;
        }
        if allowLiteral {
          ok := TakeLiteral();
          if ok {
            break body;
          }
        }
        Here();
        if CurrentKind(Identifier) {
          ok := Named();
        }
      }
      depth := depth - 1;
    }

    method TakeLiteral() returns (ok: bool)
      requires Valid()
      modifies this`index
      ensures Valid() && index == old(index) + if ok then 1 else 0
      ensures var s := old(Left());
        && ok == (s.Then? && (s.head.Text? || s.head.Num? || (s.head.Key? && s.head.keyword in {NULL, TRUE, FALSE})))
        && (ok ==> Left() == s.tail)
    {
      ok := TakeKind(StringText);
      if !ok { ok := TakeKind(Number); }
      if !ok { ok := TakeKeyword(NULL); }
      if !ok { ok := TakeKeyword(TRUE); }
      if !ok { ok := TakeKeyword(FALSE); }
    }

    /** An identifier that is not a literal: a column, p.*, or a call. */
    method Named() returns (ok: bool)
      requires Valid() && CurrentKind(Identifier) && depth > 0
      modifies this
      ensures Valid() && depth == old(depth) && old(index) < index
      ensures var r := ReadScalar(old(Left()), extended, false, depth - 1);
        ok == r.Done? && (ok ==> Left() == r.rest)
      decreases |tokens| - index, 0
    {
      var nameToken := tokens[index];
      NameHere();
      index := index + 1;
      ok := TakeKind(LeftParen);
      if ok {
        if nameToken.end != tokens[index - 1].start {
          return false;
        }
        ok := Call(nameToken.value);
        return;
      }
      if Reserved(nameToken.value) {
        return false;
      }
      ok := Qualifier();
    }

    lemma NameHere()
      requires Valid() && CurrentKind(Identifier)
      ensures var name := tokens[index].value;
        && Left().Then? && Left().tail == Drop(symbols, index + 1)
        && (if Reserved(name) then Left().head.Key? && FnOf(ToUpper(name)).None?
            else Left().head == Name(ToUpper(name)))
      ensures index + 1 < |tokens| && tokens[index + 1].kind == LeftParen ==>
        StartsWith(Drop(symbols, index + 1), Open(tokens[index].end == tokens[index + 1].start))
    {
      hide WordSymbol, KeywordOf, FnOf;
      Here();
      NameSeen(tokens, index);
      DropStream(tokens, 0, index + 1);
    }

    /** Nothing, a dot and a name, or in the extended dialect a dot and a star. */
    method Qualifier() returns (ok: bool)
      requires Valid()
      modifies this`index
      ensures Valid() && old(index) <= index
      ensures var s := old(Left());
        if !StartsWith(s, Symbol.Dot) then ok && Left() == s
        else if IsName(s.tail) || (extended && StartsWith(s.tail, Symbol.Star)) then ok && Left() == s.tail.tail
        else !ok
    {
      ok := TakeKind(Kind.Dot);
      if !ok {
        return true;
      }
      if extended {
        ok := TakeKind(Kind.Star);
        if ok {
          return;
        }
      }
      ok := TakeIdentifier();
    }

    method Call(name: string) returns (ok: bool)
      requires Valid()
      modifies this
      ensures Valid() && depth == old(depth) && old(index) <= index
      ensures var r := ReadCall(ToUpper(name), old(Left()), extended, depth);
        ok == r.Done? && (ok ==> Left() == r.rest)
      decreases |tokens| - index, 7
    {
      hide Drop, Stream, FnOf, Spelling, KeywordOf, Reserved, ReadScalar;
      hide ReadAggregate, ReadScalars, ReadTerm, ReadPredicate, ReadCondition;
      var f := FnOf(ToUpper(name));
      if f.None? {
        return false;
      }
      match f.value
      case Upper | Lower =>
        ok := Scalar(true);
        if ok { ok := TakeKind(RightParen); }
      case Replace =>
        ok := Scalar(true);
        if ok { ok := TakeKind(Kind.Comma); }
        if ok { ok := Scalar(true); }
        if ok { ok := TakeKind(Kind.Comma); }
        if ok { ok := Scalar(true); }
        if ok { ok := TakeKind(RightParen); }
      case _ =>
        ok := extended;
        if ok { ok := AggregateCall(f.value); }
    }

    method AggregateCall(f: Fn) returns (ok: bool)
      requires Valid() && extended
      modifies this
      ensures Valid() && depth == old(depth) && old(index) <= index
      ensures var r := ReadAggregate(f, old(Left()), depth);
        ok == r.Done? && (ok ==> Left() == r.rest)
      decreases |tokens| - index, 6
    {
      hide Drop, Stream, FnOf, Spelling, KeywordOf, Reserved;
      hide ReadScalar, ReadScalars, ReadTerm, ReadPredicate, ReadCondition;
      if f == Count {
        ok := TakeKind(Kind.Star);
        if ok {
          ok := TakeKind(RightParen);
          return;
        }
      }
      var _ := TakeKeyword(DISTINCT);
      ok := BooleanExpression();
      if ok { ok := TakeKind(RightParen); }
    }

    // ----- Conditions ----------------------------------------------------------------------------

    method BooleanExpression() returns (ok: bool)
      requires Valid()
      modifies this
      ensures Valid() && depth == old(depth) && old(index) <= index && (ok ==> old(index) < index)
      ensures var r := ReadCondition(old(Left()), extended, depth);
        ok == r.Done? && (ok ==> Left() == r.rest)
      decreases |tokens| - index, 5
    {
      hide Drop, Stream, FnOf, Spelling, KeywordOf, Reserved, ReadTerm, ReadScalar;
      ok := BooleanTerm();
      if !ok {
        return;
      }
      ghost var whole := ReadCondition(old(Left()), extended, depth);
      while true
        invariant Valid() && depth == old(depth) && old(index) < index
        invariant if IsKey(Left(), AND) || IsKey(Left(), OR)
          then
            var r := ReadCondition(Left().tail, extended, depth);
            whole.Done? == r.Done? && (r.Done? ==> whole.rest == r.rest)
          else whole.Done? && whole.rest == Left()
        decreases |tokens| - index
      {
        var more := TakeKeyword(AND);
        if !more {
          more := TakeKeyword(OR);
        }
        if !more {
          return true;
        }
        ok := BooleanTerm();
        if !ok {
          return;
        }
      }
    }

    method BooleanTerm() returns (ok: bool)
      requires Valid()
      modifies this
      ensures Valid() && depth == old(depth) && old(index) <= index && (ok ==> old(index) < index)
      ensures var r := ReadTerm(old(Left()), extended, depth);
        ok == r.Done? && (ok ==> Left() == r.rest)
      decreases |tokens| - index, 4
    {
      hide Drop, Stream, FnOf, Spelling, KeywordOf, Reserved, ReadScalar, ReadScalars, ReadPredicate, ReadCondition;
      depth := depth + 1;
      label body: {
        if depth > MaxDepth {
          ok := false;
          break body;
        }
        if extended {
          ok := TakeKeyword(NOT);
          if ok {
            ok := BooleanTerm();
            break body;
          }
        }
        ok := TakeKind(LeftParen);
        if ok {
          ok := BooleanExpression();
          if ok { ok := TakeKind(RightParen); }
          break body;
        }
        ok := Scalar(true);
        if ok {
          ghost var l := ReadScalar(old(Left()), extended, true, depth).node;
          ok := Predicate(l);
        }
      }
      depth := depth - 1;
    }

    /** The rest of a term after its left operand l. */
    method Predicate(ghost l: SqlGrammar.Scalar) returns (ok: bool)
      requires Valid()
      modifies this
      ensures Valid() && depth == old(depth) && old(index) <= index
      ensures var r := ReadPredicate(l, old(Left()), extended, depth);
        ok == r.Done? && (ok ==> Left() == r.rest)
      decreases |tokens| - index, 3
    {
      hide Drop, Stream, FnOf, Spelling, KeywordOf, Reserved, ReadScalar, ReadScalars, ReadCondition;
      ok := TakeKind(Comparison);
      if !ok {
        ok := TakeKeyword(LIKE);
      }
      if ok {
        ok := Scalar(true);
        return;
      }
      ok := TakeKeyword(IS);
      if ok {
        var _ := TakeKeyword(NOT);
        ok := TakeKeyword(NULL);
        return;
      }
      ok := extended;
      if ok {
        ok := Membership(l);
      }
    }

    /** [NOT] IN and its list, or nothing. */
    method Membership(ghost l: SqlGrammar.Scalar) returns (ok: bool)
      requires Valid() && extended
      requires Left().Then? ==> !Left().head.Compare? && Left().head !in {Key(LIKE), Key(IS)}
      modifies this
      ensures Valid() && depth == old(depth) && old(index) <= index
      ensures var r := ReadPredicate(l, old(Left()), extended, depth);
        ok == r.Done? && (ok ==> Left() == r.rest)
      decreases |tokens| - index, 2
    {
      hide Drop, Stream, FnOf, Spelling, KeywordOf, Reserved, ReadScalar, ReadScalars, ReadCondition;
      var not := TakeKeyword(NOT);
      ok := TakeKeyword(IN);
      if ok {
        ok := TakeKind(LeftParen);
        if ok {
          ok := InItems();
        }
        return;
      }
      ok := !not;
    }

    /** The items of an IN list and its closing parenthesis. */
    method InItems() returns (ok: bool)
      requires Valid()
      modifies this
      ensures Valid() && depth == old(depth) && old(index) <= index
      ensures var r := ReadScalars(old(Left()), extended, depth);
        ok == (r.Done? && StartsWith(r.rest, Close)) && (ok ==> Left() == r.rest.tail)
      decreases |tokens| - index, 3
    {
      ok := Scalar(true);
      if !ok {
        return;
      }
      ghost var whole := ReadScalars(old(Left()), extended, depth);
      while true
        invariant Valid() && depth == old(depth) && old(index) < index
        invariant if StartsWith(Left(), Symbol.Comma)
          then
            var r := ReadScalars(Left().tail, extended, depth);
            whole.Done? == r.Done? && (r.Done? ==> whole.rest == r.rest)
          else whole.Done? && whole.rest == Left()
        decreases |tokens| - index
      {
        var more := TakeKind(Kind.Comma);
        if !more {
          break;
        }
        ok := Scalar(true);
        if !ok {
          return;
        }
      }
      ok := TakeKind(RightParen);
    }

    // ----- SELECT --------------------------------------------------------------------------------

    method SelectExpression() returns (ok: bool)
      requires Valid() && depth == 0
      modifies this
      ensures Valid() && depth == 0 && old(index) <= index && (ok ==> old(index) < index)
      ensures var r := ReadItem(old(Left()), extended);
        ok == r.Done? && (ok ==> Left() == r.rest)
    {
      ok := Scalar(extended);
      if ok {
        var named := TakeKeyword(AS);
        if named {
          ok := TakeIdentifier();
        }
      }
    }

    method SelectList() returns (ok: bool)
      requires Valid() && depth == 0
      modifies this
      ensures Valid() && depth == 0
      ensures var r := ReadSelection(old(Left()), extended);
        ok == r.Done? && (ok ==> Left() == r.rest)
    {
      hide Drop, Stream, FnOf, Spelling, KeywordOf, Reserved, ReadItem, ReadScalar, ReadCondition;
      ok := TakeKind(Kind.Star);
      if ok {
        return;
      }
      ok := SelectExpression();
      if !ok {
        return;
      }
      ghost var whole := ReadItems(old(Left()), extended);
      while true
        invariant Valid() && depth == 0
        invariant if StartsWith(Left(), Symbol.Comma)
          then var r := ReadItems(Left().tail, extended); whole.Done? == r.Done? && (r.Done? ==> whole.rest == r.rest)
          else whole.Done? && whole.rest == Left()
        decreases |tokens| - index
      {
        var more := TakeKind(Kind.Comma);
        if !more {
          return true;
        }
        ok := SelectExpression();
        if !ok {
          return;
        }
      }
    }

    method OrderDirection()
      requires Valid()
      modifies this`index
      ensures Valid() && old(index) <= index
      ensures Left() == if IsKey(old(Left()), ASC) || IsKey(old(Left()), DESC) then old(Left()).tail else old(Left())
    {
      var ok := TakeKeyword(ASC);
      if !ok {
        ok := TakeKeyword(DESC);
      }
    }

    method OrderList() returns (ok: bool)
      requires Valid() && depth == 0
      modifies this
      ensures Valid() && depth == 0
      ensures var r := ReadOrder(old(Left()), extended);
        ok == r.Done? && (ok ==> Left() == r.rest)
    {
      ok := Scalar(false);
      if !ok {
        return;
      }
      OrderDirection();
      ghost var whole := ReadOrder(old(Left()), extended);
      while true
        invariant Valid() && depth == 0
        invariant if StartsWith(Left(), Symbol.Comma)
          then var r := ReadOrder(Left().tail, extended); whole.Done? == r.Done? && (r.Done? ==> whole.rest == r.rest)
          else whole.Done? && whole.rest == Left()
        decreases |tokens| - index
      {
        var more := TakeKind(Kind.Comma);
        if !more {
          return true;
        }
        ok := Scalar(false);
        if !ok {
          return;
        }
        OrderDirection();
      }
    }

    method TableReference() returns (ok: bool)
      requires Valid()
      modifies this`index
      ensures Valid() && old(index) <= index && (ok ==> old(index) < index)
      ensures var r := ReadTable(old(Left()));
        ok == r.Done? && (ok ==> Left() == r.rest)
    {
      ok := TakeIdentifier();
      if !ok {
        return;
      }
      var dot := TakeKind(Kind.Dot);
      if dot {
        ok := TakeIdentifier();
        if !ok {
          return;
        }
      }
      var named := TakeKeyword(AS);
      if named {
        ok := TakeIdentifier();
        return;
      }
      PlainHere();
      if CurrentKind(Identifier) && !Reserved(tokens[index].value) {
        ok := TakeIdentifier();
        return;
      }
      ok := true;
    }

    lemma PlainHere()
      requires Valid()
      ensures (CurrentKind(Identifier) && !Reserved(tokens[index].value)) <==> IsName(Left())
    {
      Here();
    }

    /** The words before a joined table: were there any, do they start with CROSS, and is there JOIN? */
    method JoinPrefix() returns (typed: bool, cross: bool, join: bool)
      requires Valid()
      modifies this`index
      ensures Valid() && old(index) <= index && (join ==> old(index) < index)
      ensures var r := ReadJoinWords(old(Left()));
        && join == (r.Done? && r.node.Some?)
        && (join ==> Left() == r.rest && cross == (r.node.value.kind == Some(CROSS)))
        && (!join ==> typed == r.Fail? && (!typed ==> Left() == old(Left())))
    {
      cross := TakeKeyword(CROSS);
      typed := cross;
      if !typed {
        typed := TakeKeyword(INNER);
      }
      var side := TakeKeyword(LEFT);
      if !side {
        side := TakeKeyword(RIGHT);
      }
      if side {
        typed := true;
        var _ := TakeKeyword(OUTER);
      }
      join := TakeKeyword(JOIN);
    }

    method JoinedTable(cross: bool) returns (ok: bool)
      requires Valid() && depth == 0 && extended
      modifies this
      ensures Valid() && depth == 0 && old(index) <= index
      ensures var t := ReadTable(old(Left()));
        && (ok ==> t.Done?)
        && (t.Done? ==> var r := ReadOn(t.rest, cross); ok == r.Done? && (ok ==> Left() == r.rest))
    {
      ok := TableReference();
      if ok {
        var on := TakeKeyword(ON);
        if on {
          ok := BooleanExpression();
        } else {
          ok := cross;
        }
      }
    }

    method TableList() returns (ok: bool)
      requires Valid() && depth == 0 && extended
      modifies this
      ensures Valid() && depth == 0
      ensures var r := ReadTables(old(Left()));
        ok == r.Done? && (ok ==> Left() == r.rest)
    {
      hide Drop, Stream, FnOf, Spelling, KeywordOf, Reserved, ReadTable, ReadOn, ReadJoinWords;
      ok := TableReference();
      if !ok {
        return;
      }
      ghost var whole := ReadJoins(ReadTable(old(Left())).rest);
      while true
        invariant Valid() && depth == 0
        invariant var r := ReadJoins(Left()); whole.Done? == r.Done? && (r.Done? ==> whole.rest == r.rest)
        decreases |tokens| - index
      {
        var comma := TakeKind(Kind.Comma);
        if comma {
          ok := TableReference();
          if !ok {
            return;
          }
          continue;
        }
        var typed, cross, join := JoinPrefix();
        if !join {
          return !typed;
        }
        ok := JoinedTable(cross);
        if !ok {
          return;
        }
      }
    }

    method IntegerToken(allowZero: bool) returns (ok: bool)
      requires Valid()
      modifies this`index
      ensures Valid() && index == old(index) + if ok then 1 else 0
      ensures var s := old(Left());
        && ok == (IsNum(s) && if allowZero then IsInteger(s.head.digits) else IsPositive(s.head.digits))
        && (ok ==> Left() == s.tail)
    {
      Here();
      if !CurrentKind(Number) || '.' in tokens[index].value {
        return false;
      }
      ok := Decimal(tokens[index].value, allowZero);
      if ok {
        index := index + 1;
      }
    }

    method LimitClause() returns (ok: bool)
      requires Valid()
      modifies this`index
      ensures Valid()
      ensures var r := ReadLimit(old(Left()));
        ok == r.Done? && (ok ==> Left() == r.rest)
    {
      Here();
      if !CurrentKind(Number) || '.' in tokens[index].value {
        return false;
      }
      ok := Decimal(tokens[index].value, true);
      if !ok {
        return;
      }
      var firstPositive := Decimal(tokens[index].value, false);
      index := index + 1;
      var comma := TakeKind(Kind.Comma);
      if comma {
        ok := IntegerToken(false);
        return;
      }
      if !firstPositive {
        return false;
      }
      var offset := TakeKeyword(OFFSET);
      if offset {
        ok := IntegerToken(true);
        return;
      }
      ok := true;
    }

    method OptionalCondition(first: Keyword) returns (ok: bool)
      requires Valid() && depth == 0
      modifies this
      ensures Valid() && depth == 0
      ensures var r := ReadConditionClause(old(Left()), first, extended);
        ok == r.Done? && (ok ==> Left() == r.rest)
    {
      ok := TakeKeyword(first);
      if ok {
        ok := BooleanExpression();
      } else {
        ok := true;
      }
    }

    method OptionalOrder(first: Keyword) returns (ok: bool)
      requires Valid() && depth == 0
      modifies this
      ensures Valid() && depth == 0
      ensures var r := ReadOrderClause(old(Left()), first, extended);
        ok == r.Done? && (ok ==> Left() == r.rest)
    {
      ok := TakeKeyword(first);
      if ok {
        ok := TakeKeyword(BY);
        if ok {
          ok := OrderList();
        }
      } else {
        ok := true;
      }
    }

    /** The clauses from WHERE on. */
    method SelectClauses() returns (ok: bool)
      requires Valid() && depth == 0
      modifies this
      ensures Valid() && depth == 0
      ensures var r := ReadClauses(old(Left()), extended);
        ok == r.Done? && (ok ==> Left() == r.rest)
    {
      ok := OptionalCondition(WHERE);
      if ok && extended { ok := OptionalOrder(GROUP); }
      if ok && extended { ok := OptionalCondition(HAVING); }
      if ok { ok := OptionalOrder(ORDER); }
      if ok {
        var limited := TakeKeyword(LIMIT);
        if limited {
          ok := LimitClause();
        }
      }
    }

    method FromClause() returns (ok: bool)
      requires Valid() && depth == 0
      modifies this
      ensures Valid() && depth == 0
      ensures var r := ReadFrom(old(Left()), extended);
        ok == r.Done? && (ok ==> Left() == r.rest)
    {
      var from := TakeKeyword(FROM);
      if extended {
        ok := true;
        if from {
          ok := TableList();
        }
      } else {
        ok := from;
        if ok {
          ok := TakeIdentifier();
        }
      }
    }

    method SelectStatement() returns (ok: bool)
      requires Valid() && depth == 0
      modifies this
      ensures Valid() && depth == 0
      ensures var r := ReadSelect(old(Left()), extended);
        ok == r.Done? && (ok ==> Left() == r.rest)
    {
      hide Drop, Stream, FnOf, Spelling, KeywordOf, Reserved, ReadClauses, ReadSelection, ReadScalar;
      ok := TakeKeyword(SELECT);
      if !ok {
        return;
      }
      if extended {
        var _ := TakeKeyword(DISTINCT);
      }
      ok := SelectList();
      if ok { ok := FromClause(); }
      if ok { ok := SelectClauses(); }
    }

    // ----- SHOW and DESCRIBE -----------------------------------------------------------------------

    method ShowPattern() returns (ok: bool)
      requires Valid()
      modifies this`index
      ensures Valid() && (!ok ==> index == old(index))
      ensures var r := ReadLiteral(old(Left()));
        ok == r.Done? && (ok ==> Left() == r.rest)
    {
      ok := TakeKind(StringText);
      if !ok {
        ok := TakeKind(Kind.Pattern);
      }
    }

    method OptionalPattern() returns (ok: bool)
      requires Valid()
      modifies this`index
      ensures Valid()
      ensures var r := ReadLike(old(Left()));
        ok == r.Done? && (ok ==> Left() == r.rest)
    {
      var like := TakeKeyword(LIKE);
      ok := true;
      if like {
        ok := ShowPattern();
      }
    }

    /** One of two keywords and then an identifier. */
    method KeywordAndName(a: Keyword, b: Keyword) returns (ok: bool)
      requires Valid()
      modifies this`index
      ensures Valid()
      ensures var s := old(Left());
        && ok == ((IsKey(s, a) || IsKey(s, b)) && IsName(s.tail))
        && (ok ==> Left() == s.tail.tail)
    {
      ok := TakeKeyword(a);
      if !ok { ok := TakeKeyword(b); }
      if ok { ok := TakeIdentifier(); }
    }

    method ShowStatement() returns (ok: bool)
      requires Valid()
      modifies this`index
      ensures Valid()
      ensures var r := ReadShow(old(Left()));
        ok == r.Done? && (ok ==> Left() == r.rest)
    {
      hide Drop, Stream, FnOf, Spelling, KeywordOf, Reserved, ReadLike, Parser.Valid, Parser.Left;
      ok := TakeKeyword(SHOW);
      if !ok {
        return;
      }
      var tables := TakeKeyword(TABLES);
      if tables {
        ok := OptionalPattern();
        return;
      }
      var columns := TakeKeyword(COLUMNS);
      if !columns { columns := TakeKeyword(FIELDS); }
      if columns {
        ok := KeywordAndName(FROM, IN);
        if ok {
          ok := OptionalPattern();
        }
        return;
      }
      var index := TakeKeyword(INDEX);
      if !index { index := TakeKeyword(INDEXES); }
      if !index { index := TakeKeyword(KEYS); }
      if index {
        ok := KeywordAndName(FROM, IN);
        return;
      }
      ok := TakeKeyword(CREATE);
      if ok {
        ok := KeywordAndName(TABLE, VIEW);
      }
    }

    method DescribeStatement() returns (ok: bool)
      requires Valid()
      modifies this`index
      ensures Valid()
      ensures var r := ReadDescribe(old(Left()));
        ok == r.Done? && (ok ==> Left() == r.rest)
    {
      ok := TakeKeyword(DESCRIBE);
      if !ok { ok := TakeKeyword(DESC); }
      if ok { ok := TakeIdentifier(); }
      if !ok {
        return;
      }
      Here();
      if CurrentKind(Identifier) {
        ok := TakeIdentifier();
        return;
      }
      ok := ShowPattern();
      if !ok {
        ok := AtEnd();
      }
    }

    method ReadAnyStatement() returns (ok: bool)
      requires Valid() && depth == 0 && extended
      modifies this
      ensures Valid() && depth == 0
      ensures var r := ReadStatement(old(Left()));
        ok == r.Done? && (ok ==> Left() == r.rest)
    {
      hide ReadSelect;
      Here();
      if index >= |tokens| || tokens[index].kind != Identifier {
        return false;
      }
      match KeywordOf(ToUpper(tokens[index].value))
      case Some(SELECT) => ok := SelectStatement();
      case Some(SHOW) => ok := ShowStatement();
      case Some(DESCRIBE) => ok := DescribeStatement();
      case Some(DESC) => ok := DescribeStatement();
      case _ => ok := false;
    }
  }

  /** decimal of internal/policy/diagnostic.go. */
  method Decimal(value: string, allowZero: bool) returns (ok: bool)
    ensures ok == if allowZero then IsInteger(value) else IsPositive(value)
  {
    if value == "" {
      return false;
    }
    var nonzero := false;
    for i := 0 to |value|
      invariant forall j | 0 <= j < i :: IsDigit(value[j])
      invariant nonzero <==> exists j | 0 <= j < i :: value[j] != '0'
    {
      if !IsDigit(value[i]) {
        return false;
      }
      if value[i] != '0' {
        nonzero := true;
      }
    }
    ok := allowZero || nonzero;
  }
}
