/**
  What every accepted statement looks like, whatever its tree: SELECT only at the start, no word
  that writes or locks, calls only of the known functions and only glued, parentheses balanced and
  at most 64 deep.
 */
module SqlSafety {
  import opened Ascii
  import opened SqlWords
  import opened SqlGrammar
  import opened SqlReading
  import opened SqlTheorems
  import opened SqlSpelling

  /** Words that no accepted statement contains, and SELECT, which only starts one. */
  predicate Banned(k: Keyword) {
    match k
    case SELECT | UNION | INTO | OUTFILE | DUMPFILE | FOR | LOCK | PROCEDURE | USING | WITH => true
    case _ => false
  }

  /** s is orderly inside `open` parentheses. */
  predicate Tidy(s: Symbols, open: nat) {
    match s
    case End => open == 0
    case Then(Key(k), t) => !Banned(k) && Tidy(t, open)
    case Then(Name(n), t) =>
      && (t.Then? && t.head.Open? ==>
            t.head.glued && n in {"COUNT", "SUM", "AVG", "MIN", "MAX", "UPPER", "LOWER", "REPLACE"})
      && Tidy(t, open)
    case Then(Open(_), t) => open < 64 && Tidy(t, open + 1)
    case Then(Close, t) => open > 0 && Tidy(t, open - 1)
    case Then(_, t) => Tidy(t, open)
  }

  /** Tidy symbols that may stand after a name. */
  predicate TidyAfter(k: Symbols, open: nat) {
    Tidy(k, open) && (k.Then? ==> !k.head.Open?)
  }

  lemma {:induction false} ScalarTidy(a: Scalar, k: Symbols, extended: bool, literal: bool, open: nat)
    requires ScalarFits(a, extended, literal) && open + ScalarDepth(a) <= MaxDepth && TidyAfter(k, open)
    ensures TidyAfter(WriteScalar(a, k), open)
    decreases a, 2
  {
    if IsCall(a) {
      CallTidy(a, k, extended, literal, open);
    } else if a.Qualified? {
      assert Tidy(Then(Name(a.name), k), open);
      assert Tidy(Then(Dot, Then(Name(a.name), k)), open);
    } else if a.AllOf? {
      assert Tidy(Then(Star, k), open);
    }
  }

  lemma {:induction false} CallTidy(a: Scalar, k: Symbols, extended: bool, literal: bool, open: nat)
    requires IsCall(a) && ScalarFits(a, extended, literal) && open + ScalarDepth(a) <= MaxDepth && Tidy(k, open)
    ensures TidyAfter(WriteScalar(a, k), open)
    decreases a, 1
  {
    assert Tidy(Then(Close, k), open + 1);
    match a
    case Aggregate(f, d, c) =>
      NameIs(f);
      ConditionTidy(c, Then(Close, k), extended, open + 1);
      assert Tidy(Writing(d, Key(DISTINCT), WriteCondition(c, Then(Close, k))), open + 1);
      assert Tidy(WriteScalar(a, k).tail, open);
    case Fold(f, x) =>
      NameIs(f);
      ScalarTidy(x, Then(Close, k), extended, true, open + 1);
      assert Tidy(WriteScalar(a, k).tail, open);
    case Replaced(x, y, z) =>
      ReplacedTidy(a, k, extended, open);
    case CountAll =>
      NameIs(Count);
      assert Tidy(WriteScalar(a, k).tail.tail, open + 1);
      assert Tidy(WriteScalar(a, k).tail, open);
  }

  lemma {:induction false} ReplacedTidy(a: Scalar, k: Symbols, extended: bool, open: nat)
    requires a.Replaced? && ScalarFits(a, extended, true) && open + ScalarDepth(a) <= MaxDepth && Tidy(k, open)
    ensures TidyAfter(WriteScalar(a, k), open)
    decreases a, 0
  {
    NameIs(Replace);
    var zk := WriteScalar(a.text2, Then(Close, k));
    var yk := WriteScalar(a.text1, Then(Comma, zk));
    ScalarTidy(a.text2, Then(Close, k), extended, true, open + 1);
    ScalarTidy(a.text1, Then(Comma, zk), extended, true, open + 1);
    ScalarTidy(a.text0, Then(Comma, yk), extended, true, open + 1);
    assert Tidy(WriteScalar(a, k).tail, open);
  }

  lemma {:induction false} ScalarsTidy(a: Scalars, k: Symbols, extended: bool, open: nat)
    requires ScalarsFit(a, extended) && open + ScalarsDepth(a) <= MaxDepth && TidyAfter(k, open)
    ensures Tidy(WriteScalars(a, k), open)
    decreases a
  {
    match a
    case Only(x) => ScalarTidy(x, k, extended, true, open);
    case More(x, r) =>
      ScalarsTidy(r, k, extended, open);
      ScalarTidy(x, Then(Comma, WriteScalars(r, k)), extended, true, open);
  }

  lemma {:induction false} TermTidy(t: Term, k: Symbols, extended: bool, open: nat)
    requires TermFits(t, extended) && open + TermDepth(t) <= MaxDepth && TidyAfter(k, open)
    ensures Tidy(WriteTerm(t, k), open)
    decreases t, 1
  {
    match t
    case Negated(u) => TermTidy(u, k, extended, open);
    case Group(_, c) => ConditionTidy(c, Then(Close, k), extended, open + 1);
    case Compared(l, op, r) =>
      ScalarTidy(r, k, extended, true, open);
      ScalarTidy(l, Then(Compare(op), WriteScalar(r, k)), extended, true, open);
    case Like(l, r) =>
      ScalarTidy(r, k, extended, true, open);
      ScalarTidy(l, Then(Key(LIKE), WriteScalar(r, k)), extended, true, open);
    case IsNull(l, n) =>
      assert Tidy(Writing(n, Key(NOT), Then(Key(NULL), k)), open);
      ScalarTidy(l, AfterLeft(t, k), extended, true, open);
    case InList(_, _, _, _) => InListTidy(t, k, extended, open);
    case Bare(l) => ScalarTidy(l, k, extended, true, open);
  }

  lemma {:induction false} InListTidy(t: Term, k: Symbols, extended: bool, open: nat)
    requires t.InList? && TermFits(t, extended) && open + TermDepth(t) <= MaxDepth && TidyAfter(k, open)
    ensures Tidy(WriteTerm(t, k), open)
    decreases t, 0
  {
    assert Tidy(Then(Close, k), open + 1);
    ScalarsTidy(t.items, Then(Close, k), extended, open + 1);
    var list := Then(Open(t.glued), WriteScalars(t.items, Then(Close, k)));
    assert Tidy(list, open);
    assert Tidy(Then(Key(IN), list), open);
    ScalarTidy(t.left, AfterLeft(t, k), extended, true, open);
  }

  lemma {:induction false} ConditionTidy(c: Condition, k: Symbols, extended: bool, open: nat)
    requires ConditionFits(c, extended) && open + ConditionDepth(c) <= MaxDepth && TidyAfter(k, open)
    ensures Tidy(WriteCondition(c, k), open)
    decreases c
  {
    match c
    case One(t) => TermTidy(t, k, extended, open);
    case Chain(t, j, r) =>
      ConditionTidy(r, k, extended, open);
      TermTidy(t, Then(Key(j), WriteCondition(r, k)), extended, open);
  }

  lemma {:induction false} ItemsTidy(a: Items, k: Symbols, extended: bool)
    requires ItemsFit(a, extended) && ItemsDepth(a) <= MaxDepth && TidyAfter(k, 0)
    ensures Tidy(WriteItems(a, k), 0)
  {
    var i := a.item;
    var rest := k;
    if a.MoreItems? {
      ItemsTidy(a.rest, k, extended);
      rest := Then(Comma, WriteItems(a.rest, k));
    }
    var k := if i.alias.Some? then Then(Key(AS), Then(Name(i.alias.value), rest)) else rest;
    ScalarTidy(i.value, k, extended, extended, 0);
  }

  lemma {:induction false} OrderTidy(o: Order, k: Symbols, extended: bool)
    requires OrderFits(o, extended) && OrderDepth(o) <= MaxDepth && TidyAfter(k, 0)
    ensures Tidy(WriteOrder(o, k), 0)
  {
    var key := o.key;
    var rest := k;
    if o.MoreKeys? {
      OrderTidy(o.rest, k, extended);
      rest := Then(Comma, WriteOrder(o.rest, k));
    }
    var k := if key.direction.Some? then Then(Key(key.direction.value), rest) else rest;
    ScalarTidy(key.value, k, extended, false, 0);
  }

  lemma TableTidy(t: Table, k: Symbols)
    requires TidyAfter(k, 0)
    ensures TidyAfter(WriteTable(t, k), 0)
  {
    var rest := WriteAlias(t.alias, k);
    assert TidyAfter(rest, 0) by {
      if t.alias.Worded? {
        assert Tidy(Then(Name(t.alias.name), k), 0);
      }
    }
    if t.member.Some? {
      assert Tidy(Then(Name(t.member.value), rest), 0);
      assert Tidy(Then(Dot, Then(Name(t.member.value), rest)), 0);
    }
  }

  lemma JoinWordsTidy(w: JoinWords, k: Symbols)
    requires JoinWordsFit(w) && Tidy(k, 0)
    ensures TidyAfter(WriteJoinWords(w, k), 0)
  {
    var join := Writing(w.outer, Key(OUTER), Then(Key(JOIN), k));
    assert TidyAfter(Then(Key(JOIN), k), 0);
    assert TidyAfter(join, 0);
    if w.side.Some? {
      assert TidyAfter(Then(Key(w.side.value), join), 0);
    }
  }

  lemma {:induction false} JoinsTidy(j: Joins, k: Symbols)
    requires JoinsFit(j) && JoinsDepth(j) <= MaxDepth && TidyAfter(k, 0)
    ensures TidyAfter(WriteJoins(j, k), 0)
  {
    match j
    case NoJoin =>
    case CommaJoin(t, r) =>
      JoinsTidy(r, k);
      TableTidy(t, WriteJoins(r, k));
    case WordJoin(w, t, on, r) =>
      var rest := WriteJoins(r, k);
      JoinsTidy(r, k);
      if on.Some? {
        ConditionTidy(on.value, rest, true, 0);
        assert Tidy(WriteOn(on, rest), 0);
      }
      TableTidy(t, WriteOn(on, rest));
      JoinWordsTidy(w, WriteTable(t, WriteOn(on, rest)));
  }

  lemma ConditionClauseTidy(first: Keyword, c: Option<Condition>, k: Symbols, extended: bool)
    requires (c.Some? ==> ConditionFits(c.value, extended)) && OptionalDepth(c) <= MaxDepth
    requires TidyAfter(k, 0) && !Banned(first)
    ensures TidyAfter(WriteConditionClause(first, c, k), 0)
  {
    if c.Some? {
      ConditionTidy(c.value, k, extended, 0);
      assert Tidy(WriteConditionClause(first, c, k), 0);
    }
  }

  lemma OrderClauseTidy(first: Keyword, o: Option<Order>, k: Symbols, extended: bool)
    requires (o.Some? ==> OrderFits(o.value, extended)) && OptionalOrderDepth(o) <= MaxDepth
    requires TidyAfter(k, 0) && !Banned(first)
    ensures TidyAfter(WriteOrderClause(first, o, k), 0)
  {
    if o.Some? {
      OrderTidy(o.value, k, extended);
      assert Tidy(Then(Key(BY), WriteOrder(o.value, k)), 0);
    }
  }

  lemma LimitTidy(l: Option<Limit>)
    ensures TidyAfter(WriteOptionalLimit(l, End), 0)
  {
    assert Tidy(End, 0);
    if l.Some? {
      var n := if l.value.Limit? && l.value.offset.Some? then l.value.offset.value else l.value.count;
      var last := Then(Num(n), End);
      assert Tidy(last, 0);
      assert Tidy(Then(Comma, last), 0) && Tidy(Then(Key(OFFSET), last), 0);
      assert Tidy(WriteLimit(l.value, End), 0);
    }
  }

  lemma ClausesTidy(c: Clauses, extended: bool)
    requires ClausesFit(c, extended) && ClausesDepth(c) <= MaxDepth
    ensures TidyAfter(WriteClauses(c, End), 0)
  {
    var k := WriteOptionalLimit(c.limit, End);
    LimitTidy(c.limit);
    OrderClauseTidy(ORDER, c.order, k, extended);
    k := WriteOrderClause(ORDER, c.order, k);
    ConditionClauseTidy(HAVING, c.having, k, extended);
    k := WriteConditionClause(HAVING, c.having, k);
    OrderClauseTidy(GROUP, c.grouping, k, extended);
    k := WriteOrderClause(GROUP, c.grouping, k);
    ConditionClauseTidy(WHERE, c.filter, k, extended);
  }

  lemma SelectTidy(q: Select, extended: bool)
    requires SelectFits(q, extended) && SelectDepth(q) <= MaxDepth
    ensures Tidy(WriteSelect(q, End).tail, 0)
  {
    var k := WriteClauses(q.clauses, End);
    ClausesTidy(q.clauses, extended);
    if q.tables.Some? {
      JoinsTidy(q.tables.value.joins, k);
      TableTidy(q.tables.value.first, WriteJoins(q.tables.value.joins, k));
    }
    k := WriteFrom(q.tables, k);
    if q.selection.Listed? {
      ItemsTidy(q.selection.items, k, extended);
    }
  }

  lemma ShowTidy(a: Statement)
    requires !a.Query? && StatementFits(a)
    ensures Tidy(WriteStatement(a), 0) && !IsKey(WriteStatement(a), SELECT)
  {
    assert Tidy(End, 0);
    var literal := if a.Describe? && a.subject.Matching? then Some(a.subject.literal)
                   else if a.ShowTables? || a.ShowColumns? then a.like else None;
    if literal.Some? {
      assert Tidy(WriteLiteral(literal.value, End), 0);
    }
    if a.ShowTables? || a.ShowColumns? {
      assert TidyAfter(WriteLike(a.like, End), 0);
    }
    match a
    case ShowTables(l) => assert Tidy(WriteStatement(a).tail, 0);
    case ShowColumns(_, _, t, l) =>
      assert Tidy(WriteStatement(a).tail.tail.tail, 0);
      assert Tidy(WriteStatement(a).tail.tail, 0);
      assert Tidy(WriteStatement(a).tail, 0);
    case ShowIndex(_, _, t) =>
      assert Tidy(WriteStatement(a).tail.tail.tail, 0);
      assert Tidy(WriteStatement(a).tail.tail, 0);
      assert Tidy(WriteStatement(a).tail, 0);
    case ShowCreate(_, n) =>
      assert Tidy(WriteStatement(a).tail.tail.tail, 0);
      assert Tidy(WriteStatement(a).tail.tail, 0);
      assert Tidy(WriteStatement(a).tail, 0);
    case Describe(_, t, s) =>
      if s.Field? {
        assert Tidy(Then(Name(s.name), End), 0);
      }
      assert TidyAfter(WriteSubject(s, End), 0);
      assert Tidy(WriteStatement(a).tail, 0);
  }

  lemma AcceptedTidy(s: Symbols)
    requires AcceptsStatement(s)
    ensures s.Then? && (if s.head == Key(SELECT) then Tidy(s.tail, 0) else Tidy(s, 0))
  {
    StatementsExactly(s);
    var a: Statement :| StatementFits(a) && StatementDepth(a) <= MaxDepth && WriteStatement(a) == s;
    if a.Query? {
      SelectTidy(a.select, true);
    } else {
      ShowTidy(a);
    }
  }
}
