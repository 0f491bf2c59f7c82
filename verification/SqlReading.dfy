/**
  The decisions of the recursive-descent reader in internal/policy/mysql.go as functions from the
  symbols still to be read to a syntax tree and the symbols left over. The class SqlParser is
  proved to take exactly these decisions; the lemmas of SqlTheorems say what they amount to.
 */
module SqlReading {
  import opened Ascii
  import opened SqlWords
  import opened SqlGrammar

  datatype Parsed<T> = Fail | Done(node: T, rest: Symbols)

  predicate IsKey(s: Symbols, k: Keyword) {
    s.Then? && s.head == Key(k)
  }

  predicate IsName(s: Symbols) {
    s.Then? && s.head.Name?
  }

  predicate IsNum(s: Symbols) {
    s.Then? && s.head.Num?
  }

  /** depth counts the scalars and terms already open around this one. */
  function ReadScalar(s: Symbols, extended: bool, literal: bool, depth: nat): (r: Parsed<Scalar>)
    ensures r.Done? ==> Length(r.rest) < Length(s)
    decreases Length(s), 0
  {
    if depth >= MaxDepth || s.End? then Fail
    else if literal && s.head.Text? then Done(TextValue(s.head.text), s.tail)
    else if literal && s.head.Num? then Done(NumValue(s.head.digits), s.tail)
    else if literal && s.head.Key? && s.head.keyword in {NULL, TRUE, FALSE} then Done(Constant(s.head.keyword), s.tail)
    else if s.head.Name? then ReadNamed(s.head.name, s.tail, extended, depth + 1)
    else Fail
  }

  /** What may follow a name that starts a scalar: a call, a qualification, or nothing. */
  function ReadNamed(name: string, s: Symbols, extended: bool, depth: nat): (r: Parsed<Scalar>)
    ensures r.Done? ==> Length(r.rest) <= Length(s)
    decreases Length(s), 6
  {
    if s.Then? && s.head.Open? then
      if s.head.glued then ReadCall(name, s.tail, extended, depth) else Fail
    else if StartsWith(s, Dot) then
      assert Length(s.tail) < Length(s);
      if extended && StartsWith(s.tail, Star) then Done(AllOf(name), s.tail.tail)
      else if IsName(s.tail) then Done(Qualified(name, s.tail.head.name), s.tail.tail)
      else Fail
    else Done(Column(name), s)
  }

  /** What follows an identifier glued to a parenthesis. */
  function ReadCall(name: string, s: Symbols, extended: bool, depth: nat): (r: Parsed<Scalar>)
    ensures r.Done? ==> Length(r.rest) < Length(s)
    decreases Length(s), 5
  {
    var f := FnOf(name);
    if f.None? then Fail
    else if f.value in {Count, Sum, Avg, Min, Max} then
      if extended then ReadAggregate(f.value, s, depth) else Fail
    else if f.value in {Upper, Lower} then
      var x := ReadScalar(s, extended, true, depth);
      if x.Done? && StartsWith(x.rest, Close) then Done(Fold(f.value, x.node), x.rest.tail) else Fail
    else
      var x := ReadScalar(s, extended, true, depth);
      if !x.Done? || !StartsWith(x.rest, Comma) then Fail else
      var y := ReadScalar(x.rest.tail, extended, true, depth);
      if !y.Done? || !StartsWith(y.rest, Comma) then Fail else
      var z := ReadScalar(y.rest.tail, extended, true, depth);
      if !z.Done? || !StartsWith(z.rest, Close) then Fail else
      Done(Replaced(x.node, y.node, z.node), z.rest.tail)
  }

  function ReadAggregate(f: Fn, s: Symbols, depth: nat): (r: Parsed<Scalar>)
    ensures r.Done? ==> Length(r.rest) < Length(s)
    decreases Length(s), 4
  {
    if f == Count && StartsWith(s, Star) then
      assert Length(s.tail) < Length(s);
      if StartsWith(s.tail, Close) then Done(CountAll, s.tail.tail) else Fail
    else
      var distinct := IsKey(s, DISTINCT);
      var c := ReadCondition(if distinct then s.tail else s, true, depth);
      if c.Done? && StartsWith(c.rest, Close) then Done(Aggregate(f, distinct, c.node), c.rest.tail) else Fail
  }

  function ReadScalars(s: Symbols, extended: bool, depth: nat): (r: Parsed<Scalars>)
    ensures r.Done? ==> Length(r.rest) < Length(s)
    decreases Length(s), 1
  {
    var x := ReadScalar(s, extended, true, depth);
    if !x.Done? then Fail
    else if !StartsWith(x.rest, Comma) then Done(Only(x.node), x.rest)
    else
      var more := ReadScalars(x.rest.tail, extended, depth);
      if more.Done? then Done(More(x.node, more.node), more.rest) else Fail
  }

  function ReadTerm(s: Symbols, extended: bool, depth: nat): (r: Parsed<Term>)
    ensures r.Done? ==> Length(r.rest) < Length(s)
    decreases Length(s), 2
  {
    if depth >= MaxDepth || s.End? then Fail
    else if extended && s.head == Key(NOT) then
      var t := ReadTerm(s.tail, extended, depth + 1);
      if t.Done? then Done(Negated(t.node), t.rest) else Fail
    else if s.head.Open? then
      var c := ReadCondition(s.tail, extended, depth + 1);
      if c.Done? && StartsWith(c.rest, Close) then Done(Group(s.head.glued, c.node), c.rest.tail) else Fail
    else
      var l := ReadScalar(s, extended, true, depth + 1);
      if l.Done? then ReadPredicate(l.node, l.rest, extended, depth + 1) else Fail
  }

  /** What follows the left operand of a term. */
  function ReadPredicate(l: Scalar, s: Symbols, extended: bool, depth: nat): (r: Parsed<Term>)
    ensures r.Done? ==> Length(r.rest) <= Length(s)
    decreases Length(s), 2
  {
    if s.Then? && (s.head.Compare? || s.head == Key(LIKE)) then
      var x := ReadScalar(s.tail, extended, true, depth);
      if !x.Done? then Fail
      else if s.head.Compare? then Done(Compared(l, s.head.operator, x.node), x.rest)
      else Done(Like(l, x.node), x.rest)
    else if IsKey(s, IS) then
      var negated := IsKey(s.tail, NOT);
      var k := if negated then s.tail.tail else s.tail;
      assert Length(k) <= Length(s.tail) < Length(s);
      if IsKey(k, NULL) then Done(IsNull(l, negated), k.tail) else Fail
    else if !extended then Fail
    else
      var negated := IsKey(s, NOT);
      var k := if negated then s.tail else s;
      if IsKey(k, IN) then
        if !(k.tail.Then? && k.tail.head.Open?) then Fail else
        assert Length(k.tail.tail) < Length(k.tail) < Length(k) <= Length(s);
        var xs := ReadScalars(k.tail.tail, extended, depth);
        if xs.Done? && StartsWith(xs.rest, Close)
        then Done(InList(l, negated, k.tail.head.glued, xs.node), xs.rest.tail)
        else Fail
      else if negated then Fail
      else Done(Bare(l), s)
  }

  function ReadCondition(s: Symbols, extended: bool, depth: nat): (r: Parsed<Condition>)
    ensures r.Done? ==> Length(r.rest) < Length(s)
    decreases Length(s), 3
  {
    var t := ReadTerm(s, extended, depth);
    if !t.Done? then Fail
    else if !IsKey(t.rest, AND) && !IsKey(t.rest, OR) then Done(One(t.node), t.rest)
    else
      var more := ReadCondition(t.rest.tail, extended, depth);
      if more.Done? then Done(Chain(t.node, t.rest.head.keyword, more.node), more.rest) else Fail
  }

  function ReadItem(s: Symbols, extended: bool): (r: Parsed<Item>)
    ensures r.Done? ==> Length(r.rest) < Length(s)
  {
    var x := ReadScalar(s, extended, extended, 0);
    if !x.Done? then Fail
    else if !IsKey(x.rest, AS) then Done(Item(x.node, None), x.rest)
    else if IsName(x.rest.tail) then
      assert Length(x.rest.tail.tail) < Length(x.rest.tail);
      Done(Item(x.node, Some(x.rest.tail.head.name)), x.rest.tail.tail)
    else Fail
  }

  function ReadItems(s: Symbols, extended: bool): (r: Parsed<Items>)
    decreases Length(s)
  {
    var x := ReadItem(s, extended);
    if !x.Done? then Fail
    else if !StartsWith(x.rest, Comma) then Done(LastItem(x.node), x.rest)
    else
      var more := ReadItems(x.rest.tail, extended);
      if more.Done? then Done(MoreItems(x.node, more.node), more.rest) else Fail
  }

  function ReadSelection(s: Symbols, extended: bool): Parsed<Selection> {
    if StartsWith(s, Star) then Done(Everything, s.tail)
    else
      var items := ReadItems(s, extended);
      if items.Done? then Done(Listed(items.node), items.rest) else Fail
  }

  function ReadKey(s: Symbols, extended: bool): (r: Parsed<OrderKey>)
    ensures r.Done? ==> Length(r.rest) < Length(s)
  {
    var x := ReadScalar(s, extended, false, 0);
    if !x.Done? then Fail
    else if IsKey(x.rest, ASC) || IsKey(x.rest, DESC)
    then Done(OrderKey(x.node, Some(x.rest.head.keyword)), x.rest.tail)
    else Done(OrderKey(x.node, None), x.rest)
  }

  function ReadOrder(s: Symbols, extended: bool): Parsed<Order>
    decreases Length(s)
  {
    var x := ReadKey(s, extended);
    if !x.Done? then Fail
    else if !StartsWith(x.rest, Comma) then Done(LastKey(x.node), x.rest)
    else
      var more := ReadOrder(x.rest.tail, extended);
      if more.Done? then Done(MoreKeys(x.node, more.node), more.rest) else Fail
  }

  function ReadAlias(s: Symbols): (r: Parsed<Alias>)
    ensures r.Done? ==> Length(r.rest) <= Length(s)
  {
    if IsKey(s, AS) then
      if IsName(s.tail) then Done(Worded(s.tail.head.name), s.tail.tail) else Fail
    else if IsName(s) then Done(Plain(s.head.name), s.tail)
    else Done(NoAlias, s)
  }

  function ReadTable(s: Symbols): (r: Parsed<Table>)
    ensures r.Done? ==> Length(r.rest) < Length(s)
  {
    if !IsName(s) then Fail
    else
      var dotted := StartsWith(s.tail, Dot);
      if dotted && !IsName(s.tail.tail) then Fail
      else
        var k := if dotted then s.tail.tail.tail else s.tail;
        assert dotted ==> Length(k) < Length(s.tail.tail) < Length(s.tail);
        var alias := ReadAlias(k);
        if !alias.Done? then Fail
        else Done(Table(s.head.name, if dotted then Some(s.tail.tail.head.name) else None, alias.node), alias.rest)
  }

  /** The words before a joined table; Done without JOIN only when there are no words at all. */
  function ReadJoinWords(s: Symbols): (r: Parsed<Option<JoinWords>>)
    ensures r.Done? ==> (if r.node.None? then r.rest == s else Length(r.rest) < Length(s))
  {
    var kind := if IsKey(s, CROSS) || IsKey(s, INNER) then Some(s.head.keyword) else None;
    var s1 := if kind.Some? then s.tail else s;
    var side := if IsKey(s1, LEFT) || IsKey(s1, RIGHT) then Some(s1.head.keyword) else None;
    var s2 := if side.Some? then s1.tail else s1;
    var outer := side.Some? && IsKey(s2, OUTER);
    var s3 := if outer then s2.tail else s2;
    assert Length(s3) <= Length(s2) <= Length(s1) <= Length(s);
    if IsKey(s3, JOIN) then Done(Some(JoinWords(kind, side, outer)), s3.tail)
    else if kind.Some? || side.Some? then Fail
    else Done(None, s)
  }

  function ReadOn(s: Symbols, cross: bool): (r: Parsed<Option<Condition>>)
    ensures r.Done? ==> Length(r.rest) <= Length(s)
  {
    if IsKey(s, ON) then
      var c := ReadCondition(s.tail, true, 0);
      if c.Done? then Done(Some(c.node), c.rest) else Fail
    else if cross then Done(None, s)
    else Fail
  }

  function ReadJoins(s: Symbols): Parsed<Joins>
    decreases Length(s)
  {
    if StartsWith(s, Comma) then
      var t := ReadTable(s.tail);
      if !t.Done? then Fail else
      var more := ReadJoins(t.rest);
      if more.Done? then Done(CommaJoin(t.node, more.node), more.rest) else Fail
    else
      var words := ReadJoinWords(s);
      if !words.Done? then Fail
      else if words.node.None? then Done(NoJoin, s)
      else
        var t := ReadTable(words.rest);
        if !t.Done? then Fail else
        var on := ReadOn(t.rest, words.node.value.kind == Some(CROSS));
        if !on.Done? then Fail else
        var more := ReadJoins(on.rest);
        if more.Done? then Done(WordJoin(words.node.value, t.node, on.node, more.node), more.rest) else Fail
  }

  function ReadTables(s: Symbols): Parsed<Tables> {
    var first := ReadTable(s);
    if !first.Done? then Fail else
    var joins := ReadJoins(first.rest);
    if joins.Done? then Done(Tables(first.node, joins.node), joins.rest) else Fail
  }

  function ReadFrom(s: Symbols, extended: bool): Parsed<Option<Tables>> {
    if !extended then
      if IsKey(s, FROM) && IsName(s.tail) then
        Done(Some(Tables(Table(s.tail.head.name, None, NoAlias), NoJoin)), s.tail.tail)
      else Fail
    else if IsKey(s, FROM) then
      var t := ReadTables(s.tail);
      if t.Done? then Done(Some(t.node), t.rest) else Fail
    else Done(None, s)
  }

  function ReadConditionClause(s: Symbols, first: Keyword, extended: bool): Parsed<Option<Condition>> {
    if IsKey(s, first) then
      var c := ReadCondition(s.tail, extended, 0);
      if c.Done? then Done(Some(c.node), c.rest) else Fail
    else Done(None, s)
  }

  function ReadOrderClause(s: Symbols, first: Keyword, extended: bool): Parsed<Option<Order>> {
    if !IsKey(s, first) then Done(None, s)
    else if !IsKey(s.tail, BY) then Fail
    else
      var o := ReadOrder(s.tail.tail, extended);
      if o.Done? then Done(Some(o.node), o.rest) else Fail
  }

  function ReadLimit(s: Symbols): Parsed<Limit> {
    if !IsNum(s) || !IsInteger(s.head.digits) then Fail
    else
      var n := s.head.digits;
      var k := s.tail;
      if StartsWith(k, Comma) then
        if IsNum(k.tail) && IsPositive(k.tail.head.digits) then Done(Range(n, k.tail.head.digits), k.tail.tail)
        else Fail
      else if !IsPositive(n) then Fail
      else if IsKey(k, OFFSET) then
        if IsNum(k.tail) && IsInteger(k.tail.head.digits) then Done(Limit(n, Some(k.tail.head.digits)), k.tail.tail)
        else Fail
      else Done(Limit(n, None), k)
  }

  function ReadOptionalLimit(s: Symbols): Parsed<Option<Limit>> {
    if IsKey(s, LIMIT) then
      var l := ReadLimit(s.tail);
      if l.Done? then Done(Some(l.node), l.rest) else Fail
    else Done(None, s)
  }

  function ReadClauses(s: Symbols, extended: bool): Parsed<Clauses> {
    var filter := ReadConditionClause(s, WHERE, extended);
    if !filter.Done? then Fail else
    var grouping := if extended then ReadOrderClause(filter.rest, GROUP, extended) else Done(None, filter.rest);
    if !grouping.Done? then Fail else
    var having := if extended then ReadConditionClause(grouping.rest, HAVING, extended) else Done(None, grouping.rest);
    if !having.Done? then Fail else
    var order := ReadOrderClause(having.rest, ORDER, extended);
    if !order.Done? then Fail else
    var limit := ReadOptionalLimit(order.rest);
    if !limit.Done? then Fail else
    Done(Clauses(filter.node, grouping.node, having.node, order.node, limit.node), limit.rest)
  }

  function ReadSelect(s: Symbols, extended: bool): Parsed<Select> {
    if !IsKey(s, SELECT) then Fail else
    var distinct := extended && IsKey(s.tail, DISTINCT);
    var selection := ReadSelection(if distinct then s.tail.tail else s.tail, extended);
    if !selection.Done? then Fail else
    var tables := ReadFrom(selection.rest, extended);
    if !tables.Done? then Fail else
    var clauses := ReadClauses(tables.rest, extended);
    if !clauses.Done? then Fail else
    Done(Select(distinct, selection.node, tables.node, clauses.node), clauses.rest)
  }

  function ReadLiteral(s: Symbols): Parsed<Literal> {
    if s.Then? && s.head.Text? then Done(Quoted(s.head.text), s.tail)
    else if s.Then? && s.head.Pattern? then Done(Unquoted(s.head.pattern), s.tail)
    else Fail
  }

  function ReadLike(s: Symbols): Parsed<Option<Literal>> {
    if IsKey(s, LIKE) then
      var l := ReadLiteral(s.tail);
      if l.Done? then Done(Some(l.node), l.rest) else Fail
    else Done(None, s)
  }

  function ReadShow(s: Symbols): Parsed<Statement> {
    if !IsKey(s, SHOW) || !s.tail.Then? || !s.tail.head.Key? then Fail else
    var noun := s.tail.head.keyword;
    var k := s.tail.tail;
    if noun == TABLES then
      var like := ReadLike(k);
      if like.Done? then Done(ShowTables(like.node), like.rest) else Fail
    else if noun in {COLUMNS, FIELDS} then
      if (IsKey(k, FROM) || IsKey(k, IN)) && IsName(k.tail) then
        var like := ReadLike(k.tail.tail);
        if like.Done? then Done(ShowColumns(noun, k.head.keyword, k.tail.head.name, like.node), like.rest) else Fail
      else Fail
    else if noun in {INDEX, INDEXES, KEYS} then
      if (IsKey(k, FROM) || IsKey(k, IN)) && IsName(k.tail) then
        Done(ShowIndex(noun, k.head.keyword, k.tail.head.name), k.tail.tail)
      else Fail
    else if noun == CREATE then
      if (IsKey(k, TABLE) || IsKey(k, VIEW)) && IsName(k.tail) then
        Done(ShowCreate(k.head.keyword, k.tail.head.name), k.tail.tail)
      else Fail
    else Fail
  }

  function ReadDescribe(s: Symbols): Parsed<Statement> {
    if !(IsKey(s, DESCRIBE) || IsKey(s, DESC)) || !IsName(s.tail) then Fail else
    var verb := s.head.keyword;
    var table := s.tail.head.name;
    var k := s.tail.tail;
    if k.End? then Done(Describe(verb, table, NoSubject), k)
    else if k.head.Name? then Done(Describe(verb, table, Field(k.head.name)), k.tail)
    else
      var l := ReadLiteral(k);
      if l.Done? then Done(Describe(verb, table, Matching(l.node)), l.rest) else Fail
  }

  function ReadStatement(s: Symbols): Parsed<Statement> {
    if IsKey(s, SELECT) then
      var q := ReadSelect(s, true);
      if q.Done? then Done(Query(q.node), q.rest) else Fail
    else if IsKey(s, SHOW) then ReadShow(s)
    else ReadDescribe(s)
  }
}
