/**
  The language that the SQL reader of internal/policy/mysql.go is meant to recognise: syntax
  trees, the symbols they are written with, and how deeply they nest.
 */
module SqlGrammar {
  import opened Ascii
  import opened SqlWords

  // ----- Symbols ---------------------------------------------------------------------------

  /**
    What the reader can see of one token: keywords and names in upper case, and for an opening
    parenthesis whether it touches the identifier before it.
   */
  datatype Symbol =
    | Key(keyword: Keyword)
    | Name(name: string)
    | Num(digits: string)
    | Text(text: string)
    | Pattern(pattern: string)
    | Compare(operator: string)
    | Open(glued: bool)
    | Close
    | Comma
    | Star
    | Dot

  /** A list of symbols. */
  datatype Symbols = End | Then(head: Symbol, tail: Symbols)

  function Length(s: Symbols): nat {
    match s
    case End => 0
    case Then(_, t) => 1 + Length(t)
  }

  predicate StartsWith(s: Symbols, x: Symbol) {
    s.Then? && s.head == x
  }

  // ----- Syntax trees ----------------------------------------------------------------------

  datatype Scalar =
    | TextValue(text: string)
    | NumValue(digits: string)
    | Constant(keyword: Keyword)                       // NULL, TRUE, FALSE
    | Column(name: string)
    | Qualified(table: string, name: string)
    | AllOf(table: string)                             // p.*
    | CountAll                                         // COUNT(*)
    | Aggregate(fn: Fn, distinct: bool, condition: Condition)
    | Fold(fn: Fn, arg: Scalar)                        // UPPER, LOWER
    | Replaced(text0: Scalar, text1: Scalar, text2: Scalar)

  datatype Scalars = Only(scalar: Scalar) | More(scalar: Scalar, rest: Scalars)

  datatype Term =
    | Negated(term: Term)
    | Group(glued: bool, condition: Condition)
    | Compared(left: Scalar, operator: string, right: Scalar)
    | Like(left: Scalar, right: Scalar)
    | IsNull(left: Scalar, negated: bool)
    | InList(left: Scalar, negated: bool, glued: bool, items: Scalars)
    | Bare(left: Scalar)

  datatype Condition = One(term: Term) | Chain(term: Term, joint: Keyword, rest: Condition)

  datatype Item = Item(value: Scalar, alias: Option<string>)
  datatype Items = LastItem(item: Item) | MoreItems(item: Item, rest: Items)
  datatype Selection = Everything | Listed(items: Items)

  datatype OrderKey = OrderKey(value: Scalar, direction: Option<Keyword>)
  datatype Order = LastKey(key: OrderKey) | MoreKeys(key: OrderKey, rest: Order)

  datatype Alias = NoAlias | Plain(name: string) | Worded(name: string)
  datatype Table = Table(name: string, member: Option<string>, alias: Alias)
  /** A join's words: [CROSS|INNER] [(LEFT|RIGHT) [OUTER]] JOIN. */
  datatype JoinWords = JoinWords(kind: Option<Keyword>, side: Option<Keyword>, outer: bool)
  datatype Joins =
    | NoJoin
    | CommaJoin(table: Table, rest: Joins)
    | WordJoin(words: JoinWords, table: Table, on: Option<Condition>, rest: Joins)
  datatype Tables = Tables(first: Table, joins: Joins)

  datatype Limit = Limit(count: string, offset: Option<string>) | Range(from: string, count: string)

  /** The clauses from WHERE on. */
  datatype Clauses = Clauses(
    filter: Option<Condition>,
    grouping: Option<Order>,
    having: Option<Condition>,
    order: Option<Order>,
    limit: Option<Limit>)

  datatype Select = Select(distinct: bool, selection: Selection, tables: Option<Tables>, clauses: Clauses)

  datatype Literal = Quoted(text: string) | Unquoted(pattern: string)

  datatype Subject = NoSubject | Field(name: string) | Matching(literal: Literal)

  datatype Statement =
    | Query(select: Select)
    | ShowTables(like: Option<Literal>)
    | ShowColumns(noun: Keyword, preposition: Keyword, table: string, like: Option<Literal>)
    | ShowIndex(noun: Keyword, preposition: Keyword, table: string)
    | ShowCreate(noun: Keyword, name: string)
    | Describe(verb: Keyword, table: string, subject: Subject)

  // ----- Which trees each dialect has --------------------------------------------------------

  predicate IsInteger(v: string) {
    v != "" && forall i | 0 <= i < |v| :: IsDigit(v[i])
  }

  predicate IsPositive(v: string) {
    IsInteger(v) && exists i | 0 <= i < |v| :: v[i] != '0'
  }

  /** extended: the dialect of validateReadOnlySQL; literal: a literal may stand here. */
  predicate ScalarFits(a: Scalar, extended: bool, literal: bool) {
    match a
    case TextValue(_) => literal
    case NumValue(_) => literal
    case Constant(k) => literal && k in {NULL, TRUE, FALSE}
    case Column(_) => true
    case Qualified(_, _) => true
    case AllOf(_) => extended
    case CountAll => extended
    case Aggregate(f, _, c) => extended && f in {Count, Sum, Avg, Min, Max} && ConditionFits(c, extended)
    case Fold(f, x) => f in {Upper, Lower} && ScalarFits(x, extended, true)
    case Replaced(x, y, z) =>
      ScalarFits(x, extended, true) && ScalarFits(y, extended, true) && ScalarFits(z, extended, true)
  }

  predicate ScalarsFit(a: Scalars, extended: bool) {
    match a
    case Only(x) => ScalarFits(x, extended, true)
    case More(x, r) => ScalarFits(x, extended, true) && ScalarsFit(r, extended)
  }

  predicate TermFits(t: Term, extended: bool) {
    match t
    case Negated(u) => extended && TermFits(u, extended)
    case Group(_, c) => ConditionFits(c, extended)
    case Compared(l, _, r) => ScalarFits(l, extended, true) && ScalarFits(r, extended, true)
    case Like(l, r) => ScalarFits(l, extended, true) && ScalarFits(r, extended, true)
    case IsNull(l, _) => ScalarFits(l, extended, true)
    case InList(l, _, _, xs) => extended && ScalarFits(l, extended, true) && ScalarsFit(xs, extended)
    case Bare(l) => extended && ScalarFits(l, extended, true)
  }

  predicate ConditionFits(c: Condition, extended: bool) {
    match c
    case One(t) => TermFits(t, extended)
    case Chain(t, j, r) => TermFits(t, extended) && j in {AND, OR} && ConditionFits(r, extended)
  }

  predicate ItemFits(i: Item, extended: bool) {
    ScalarFits(i.value, extended, extended)
  }

  predicate ItemsFit(a: Items, extended: bool) {
    match a
    case LastItem(i) => ItemFits(i, extended)
    case MoreItems(i, r) => ItemFits(i, extended) && ItemsFit(r, extended)
  }

  predicate KeyFits(k: OrderKey, extended: bool) {
    && ScalarFits(k.value, extended, false)
    && (k.direction.Some? ==> k.direction.value in {ASC, DESC})
  }

  predicate OrderFits(o: Order, extended: bool) {
    match o
    case LastKey(k) => KeyFits(k, extended)
    case MoreKeys(k, r) => KeyFits(k, extended) && OrderFits(r, extended)
  }

  predicate JoinWordsFit(w: JoinWords) {
    && (w.kind.Some? ==> w.kind.value in {CROSS, INNER})
    && (w.side.Some? ==> w.side.value in {LEFT, RIGHT})
    && (w.outer ==> w.side.Some?)
  }

  /** ON may be left out only after CROSS. */
  predicate JoinsFit(j: Joins) {
    match j
    case NoJoin => true
    case CommaJoin(_, r) => JoinsFit(r)
    case WordJoin(w, _, on, r) =>
      && JoinWordsFit(w)
      && (on.None? ==> w.kind == Some(CROSS))
      && (on.Some? ==> ConditionFits(on.value, true))
      && JoinsFit(r)
  }

  predicate LimitFits(l: Limit) {
    match l
    case Limit(n, offset) => IsPositive(n) && (offset.Some? ==> IsInteger(offset.value))
    case Range(m, n) => IsInteger(m) && IsPositive(n)
  }

  predicate ClausesFit(c: Clauses, extended: bool) {
    && (c.filter.Some? ==> ConditionFits(c.filter.value, extended))
    && (c.grouping.Some? ==> extended && OrderFits(c.grouping.value, extended))
    && (c.having.Some? ==> extended && ConditionFits(c.having.value, extended))
    && (c.order.Some? ==> OrderFits(c.order.value, extended))
    && (c.limit.Some? ==> LimitFits(c.limit.value))
  }

  predicate TablesFit(t: Option<Tables>, extended: bool) {
    && (t.Some? ==> JoinsFit(t.value.joins))
    && (!extended ==> t.Some? && IsSingleTable(t.value))
  }

  /** The older dialect selects from exactly one unaliased table. */
  predicate IsSingleTable(t: Tables) {
    t.joins.NoJoin? && t.first.member.None? && t.first.alias.NoAlias?
  }

  predicate SelectFits(q: Select, extended: bool) {
    && (q.distinct ==> extended)
    && (q.selection.Listed? ==> ItemsFit(q.selection.items, extended))
    && TablesFit(q.tables, extended)
    && ClausesFit(q.clauses, extended)
  }

  predicate StatementFits(a: Statement) {
    match a
    case Query(q) => SelectFits(q, true)
    case ShowTables(_) => true
    case ShowColumns(noun, p, _, _) => noun in {COLUMNS, FIELDS} && p in {FROM, IN}
    case ShowIndex(noun, p, _) => noun in {INDEX, INDEXES, KEYS} && p in {FROM, IN}
    case ShowCreate(noun, _) => noun in {TABLE, VIEW}
    case Describe(verb, _, _) => verb in {DESCRIBE, DESC}
  }

  // ----- Nesting -----------------------------------------------------------------------------

  const MaxDepth := 64

  function Larger(a: nat, b: nat): nat {
    if a < b then b else a
  }

  function ScalarDepth(a: Scalar): nat {
    1 + match a
        case Aggregate(_, _, c) => ConditionDepth(c)
        case Fold(_, x) => ScalarDepth(x)
        case Replaced(x, y, z) => Larger(ScalarDepth(x), Larger(ScalarDepth(y), ScalarDepth(z)))
        case _ => 0
  }

  function ScalarsDepth(a: Scalars): nat {
    match a
    case Only(x) => ScalarDepth(x)
    case More(x, r) => Larger(ScalarDepth(x), ScalarsDepth(r))
  }

  function TermDepth(t: Term): nat {
    1 + match t
        case Negated(u) => TermDepth(u)
        case Group(_, c) => ConditionDepth(c)
        case Compared(l, _, r) => Larger(ScalarDepth(l), ScalarDepth(r))
        case Like(l, r) => Larger(ScalarDepth(l), ScalarDepth(r))
        case IsNull(l, _) => ScalarDepth(l)
        case InList(l, _, _, xs) => Larger(ScalarDepth(l), ScalarsDepth(xs))
        case Bare(l) => ScalarDepth(l)
  }

  function ConditionDepth(c: Condition): nat {
    match c
    case One(t) => TermDepth(t)
    case Chain(t, _, r) => Larger(TermDepth(t), ConditionDepth(r))
  }

  function OptionalDepth(c: Option<Condition>): nat {
    if c.Some? then ConditionDepth(c.value) else 0
  }

  function ItemsDepth(a: Items): nat {
    match a
    case LastItem(i) => ScalarDepth(i.value)
    case MoreItems(i, r) => Larger(ScalarDepth(i.value), ItemsDepth(r))
  }

  function OrderDepth(o: Order): nat {
    match o
    case LastKey(k) => ScalarDepth(k.value)
    case MoreKeys(k, r) => Larger(ScalarDepth(k.value), OrderDepth(r))
  }

  function OptionalOrderDepth(o: Option<Order>): nat {
    if o.Some? then OrderDepth(o.value) else 0
  }

  function JoinsDepth(j: Joins): nat {
    match j
    case NoJoin => 0
    case CommaJoin(_, r) => JoinsDepth(r)
    case WordJoin(_, _, on, r) => Larger(OptionalDepth(on), JoinsDepth(r))
  }

  function ClausesDepth(c: Clauses): nat {
    Larger(Larger(OptionalDepth(c.filter), OptionalOrderDepth(c.grouping)),
           Larger(OptionalDepth(c.having), OptionalOrderDepth(c.order)))
  }

  function SelectionDepth(s: Selection): nat {
    if s.Listed? then ItemsDepth(s.items) else 0
  }

  function TablesDepth(t: Option<Tables>): nat {
    if t.Some? then JoinsDepth(t.value.joins) else 0
  }

  function SelectDepth(q: Select): nat {
    Larger(Larger(SelectionDepth(q.selection), TablesDepth(q.tables)), ClausesDepth(q.clauses))
  }

  function StatementDepth(a: Statement): nat {
    match a
    case Query(q) => SelectDepth(q)
    case _ => 0
  }

  // ----- Writing a tree in front of the symbols k ------------------------------------------------

  function Writing(optional: bool, x: Symbol, k: Symbols): Symbols {
    if optional then Then(x, k) else k
  }

  function WriteScalar(a: Scalar, k: Symbols): Symbols
    decreases a
  {
    match a
    case TextValue(v) => Then(Text(v), k)
    case NumValue(v) => Then(Num(v), k)
    case Constant(w) => Then(Key(w), k)
    case Column(n) => Then(Name(n), k)
    case Qualified(t, n) => Then(Name(t), Then(Dot, Then(Name(n), k)))
    case AllOf(t) => Then(Name(t), Then(Dot, Then(Star, k)))
    case CountAll => Then(Name(FnName(Count)), Then(Open(true), Then(Star, Then(Close, k))))
    case Aggregate(f, d, c) =>
      Then(Name(FnName(f)), Then(Open(true), Writing(d, Key(DISTINCT), WriteCondition(c, Then(Close, k)))))
    case Fold(f, x) => Then(Name(FnName(f)), Then(Open(true), WriteScalar(x, Then(Close, k))))
    case Replaced(x, y, z) =>
      Then(Name(FnName(Replace)), Then(Open(true),
        WriteScalar(x, Then(Comma, WriteScalar(y, Then(Comma, WriteScalar(z, Then(Close, k))))))))
  }

  function WriteScalars(a: Scalars, k: Symbols): Symbols
    decreases a
  {
    match a
    case Only(x) => WriteScalar(x, k)
    case More(x, r) => WriteScalar(x, Then(Comma, WriteScalars(r, k)))
  }

  function WriteTerm(t: Term, k: Symbols): Symbols
    decreases t
  {
    match t
    case Negated(u) => Then(Key(NOT), WriteTerm(u, k))
    case Group(g, c) => Then(Open(g), WriteCondition(c, Then(Close, k)))
    case Compared(l, op, r) => WriteScalar(l, Then(Compare(op), WriteScalar(r, k)))
    case Like(l, r) => WriteScalar(l, Then(Key(LIKE), WriteScalar(r, k)))
    case IsNull(l, n) => WriteScalar(l, Then(Key(IS), Writing(n, Key(NOT), Then(Key(NULL), k))))
    case InList(l, n, g, xs) =>
      WriteScalar(l, Writing(n, Key(NOT), Then(Key(IN), Then(Open(g), WriteScalars(xs, Then(Close, k))))))
    case Bare(l) => WriteScalar(l, k)
  }

  function WriteCondition(c: Condition, k: Symbols): Symbols
    decreases c
  {
    match c
    case One(t) => WriteTerm(t, k)
    case Chain(t, j, r) => WriteTerm(t, Then(Key(j), WriteCondition(r, k)))
  }

  function WriteItem(i: Item, k: Symbols): Symbols {
    WriteScalar(i.value, if i.alias.Some? then Then(Key(AS), Then(Name(i.alias.value), k)) else k)
  }

  function WriteItems(a: Items, k: Symbols): Symbols {
    match a
    case LastItem(i) => WriteItem(i, k)
    case MoreItems(i, r) => WriteItem(i, Then(Comma, WriteItems(r, k)))
  }

  function WriteKey(o: OrderKey, k: Symbols): Symbols {
    WriteScalar(o.value, if o.direction.Some? then Then(Key(o.direction.value), k) else k)
  }

  function WriteOrder(o: Order, k: Symbols): Symbols {
    match o
    case LastKey(x) => WriteKey(x, k)
    case MoreKeys(x, r) => WriteKey(x, Then(Comma, WriteOrder(r, k)))
  }

  function WriteAlias(a: Alias, k: Symbols): Symbols {
    match a
    case NoAlias => k
    case Plain(n) => Then(Name(n), k)
    case Worded(n) => Then(Key(AS), Then(Name(n), k))
  }

  function WriteTable(t: Table, k: Symbols): Symbols {
    var rest := WriteAlias(t.alias, k);
    Then(Name(t.name), if t.member.Some? then Then(Dot, Then(Name(t.member.value), rest)) else rest)
  }

  function WriteJoinWords(w: JoinWords, k: Symbols): Symbols {
    var join := Writing(w.outer, Key(OUTER), Then(Key(JOIN), k));
    var sided := if w.side.Some? then Then(Key(w.side.value), join) else join;
    if w.kind.Some? then Then(Key(w.kind.value), sided) else sided
  }

  function WriteOn(on: Option<Condition>, k: Symbols): Symbols {
    if on.Some? then Then(Key(ON), WriteCondition(on.value, k)) else k
  }

  function WriteJoins(j: Joins, k: Symbols): Symbols {
    match j
    case NoJoin => k
    case CommaJoin(t, r) => Then(Comma, WriteTable(t, WriteJoins(r, k)))
    case WordJoin(w, t, on, r) => WriteJoinWords(w, WriteTable(t, WriteOn(on, WriteJoins(r, k))))
  }

  function WriteLimit(l: Limit, k: Symbols): Symbols {
    match l
    case Limit(n, offset) =>
      Then(Num(n), if offset.Some? then Then(Key(OFFSET), Then(Num(offset.value), k)) else k)
    case Range(m, n) => Then(Num(m), Then(Comma, Then(Num(n), k)))
  }

  function WriteOptionalLimit(l: Option<Limit>, k: Symbols): Symbols {
    if l.Some? then Then(Key(LIMIT), WriteLimit(l.value, k)) else k
  }

  /** first BY ... : the ORDER BY and GROUP BY clauses. */
  function WriteOrderClause(first: Keyword, o: Option<Order>, k: Symbols): Symbols {
    if o.Some? then Then(Key(first), Then(Key(BY), WriteOrder(o.value, k))) else k
  }

  function WriteConditionClause(first: Keyword, c: Option<Condition>, k: Symbols): Symbols {
    if c.Some? then Then(Key(first), WriteCondition(c.value, k)) else k
  }

  function WriteFrom(t: Option<Tables>, k: Symbols): Symbols {
    if t.Some? then Then(Key(FROM), WriteTable(t.value.first, WriteJoins(t.value.joins, k))) else k
  }

  function WriteSelection(s: Selection, k: Symbols): Symbols {
    match s
    case Everything => Then(Star, k)
    case Listed(items) => WriteItems(items, k)
  }

  function WriteClauses(c: Clauses, k: Symbols): Symbols {
    WriteConditionClause(WHERE, c.filter,
      WriteOrderClause(GROUP, c.grouping,
        WriteConditionClause(HAVING, c.having,
          WriteOrderClause(ORDER, c.order,
            WriteOptionalLimit(c.limit, k)))))
  }

  function WriteSelect(q: Select, k: Symbols): Symbols {
    Then(Key(SELECT), Writing(q.distinct, Key(DISTINCT),
      WriteSelection(q.selection, WriteFrom(q.tables, WriteClauses(q.clauses, k)))))
  }

  function WriteLiteral(l: Literal, k: Symbols): Symbols {
    match l
    case Quoted(v) => Then(Text(v), k)
    case Unquoted(v) => Then(Pattern(v), k)
  }

  function WriteLike(l: Option<Literal>, k: Symbols): Symbols {
    if l.Some? then Then(Key(LIKE), WriteLiteral(l.value, k)) else k
  }

  function WriteSubject(s: Subject, k: Symbols): Symbols {
    match s
    case NoSubject => k
    case Field(n) => Then(Name(n), k)
    case Matching(l) => WriteLiteral(l, k)
  }

  /** The symbols of a whole statement. */
  function WriteStatement(a: Statement): Symbols {
    match a
    case Query(q) => WriteSelect(q, End)
    case ShowTables(l) => Then(Key(SHOW), Then(Key(TABLES), WriteLike(l, End)))
    case ShowColumns(noun, p, t, l) => Then(Key(SHOW), Then(Key(noun), Then(Key(p), Then(Name(t), WriteLike(l, End)))))
    case ShowIndex(noun, p, t) => Then(Key(SHOW), Then(Key(noun), Then(Key(p), Then(Name(t), End))))
    case ShowCreate(noun, n) => Then(Key(SHOW), Then(Key(CREATE), Then(Key(noun), Then(Name(n), End))))
    case Describe(verb, t, s) => Then(Key(verb), Then(Name(t), WriteSubject(s, End)))
  }
}
