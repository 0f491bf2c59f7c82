/**
  The reader of internal/policy/mysql.go recognises exactly the written forms of the syntax trees
  of its dialect whose nesting is at most 64, and every such form has one tree only.
 */
module SqlTheorems {
  import opened Ascii
  import opened SqlWords
  import opened SqlGrammar
  import opened SqlReading

  // ----- What is read was written: the tree can be written back ---------------------------------

  lemma {:induction false} ScalarSound(s: Symbols, extended: bool, literal: bool, depth: nat)
    requires depth <= MaxDepth
    requires ReadScalar(s, extended, literal, depth).Done?
    ensures var r := ReadScalar(s, extended, literal, depth);
      && s == WriteScalar(r.node, r.rest) && ScalarFits(r.node, extended, literal)
      && depth + ScalarDepth(r.node) <= MaxDepth
    decreases Length(s), 0
  {
    if s.head.Name? {
      NamedSound(s.head.name, s.tail, extended, depth + 1);
    }
  }

  lemma {:induction false} NamedSound(name: string, s: Symbols, extended: bool, depth: nat)
    requires depth <= MaxDepth
    requires ReadNamed(name, s, extended, depth).Done?
    ensures var r := ReadNamed(name, s, extended, depth);
      && Then(Name(name), s) == WriteScalar(r.node, r.rest)
      && (forall literal :: ScalarFits(r.node, extended, literal))
      && depth + ScalarDepth(r.node) - 1 <= MaxDepth
    decreases Length(s), 6
  {
    if s.Then? && s.head.Open? {
      CallSound(name, s.tail, extended, depth);
    }
  }

  lemma {:induction false} CallSound(name: string, s: Symbols, extended: bool, depth: nat)
    requires depth <= MaxDepth
    requires ReadCall(name, s, extended, depth).Done?
    ensures var r := ReadCall(name, s, extended, depth);
      && Then(Name(name), Then(Open(true), s)) == WriteScalar(r.node, r.rest)
      && (forall literal :: ScalarFits(r.node, extended, literal))
      && depth + ScalarDepth(r.node) - 1 <= MaxDepth
    decreases Length(s), 5
  {
    hide ReadScalar, ReadAggregate, ReadCondition;
    var f := FnOf(name).value;
    if f in {Count, Sum, Avg, Min, Max} {
      AggregateSound(f, s, depth);
    } else {
      ScalarSound(s, extended, true, depth);
      if f.Replace? {
        var x := ReadScalar(s, extended, true, depth);
        ScalarSound(x.rest.tail, extended, true, depth);
        var y := ReadScalar(x.rest.tail, extended, true, depth);
        ScalarSound(y.rest.tail, extended, true, depth);
      }
    }
  }

  lemma {:induction false} AggregateSound(f: Fn, s: Symbols, depth: nat)
    requires depth <= MaxDepth && f in {Count, Sum, Avg, Min, Max}
    requires ReadAggregate(f, s, depth).Done?
    ensures var r := ReadAggregate(f, s, depth);
      && Then(Name(FnName(f)), Then(Open(true), s)) == WriteScalar(r.node, r.rest)
      && (forall literal :: ScalarFits(r.node, true, literal))
      && depth + ScalarDepth(r.node) - 1 <= MaxDepth
    decreases Length(s), 4
  {
    if !(f == Count && StartsWith(s, Star)) {
      ConditionSound(if IsKey(s, DISTINCT) then s.tail else s, true, depth);
    }
  }

  lemma {:induction false} ScalarsSound(s: Symbols, extended: bool, depth: nat)
    requires depth <= MaxDepth
    requires ReadScalars(s, extended, depth).Done?
    ensures var r := ReadScalars(s, extended, depth);
      s == WriteScalars(r.node, r.rest) && ScalarsFit(r.node, extended) && depth + ScalarsDepth(r.node) <= MaxDepth
    decreases Length(s), 1
  {
    ScalarSound(s, extended, true, depth);
    var x := ReadScalar(s, extended, true, depth);
    if StartsWith(x.rest, Comma) {
      ScalarsSound(x.rest.tail, extended, depth);
    }
  }

  lemma {:induction false} TermSound(s: Symbols, extended: bool, depth: nat)
    requires depth <= MaxDepth
    requires ReadTerm(s, extended, depth).Done?
    ensures var r := ReadTerm(s, extended, depth);
      s == WriteTerm(r.node, r.rest) && TermFits(r.node, extended) && depth + TermDepth(r.node) <= MaxDepth
    decreases Length(s), 2
  {
    if extended && s.head == Key(NOT) {
      TermSound(s.tail, extended, depth + 1);
    } else if s.head.Open? {
      ConditionSound(s.tail, extended, depth + 1);
    } else {
      ScalarSound(s, extended, true, depth + 1);
      var l := ReadScalar(s, extended, true, depth + 1);
      PredicateSound(l.node, l.rest, extended, depth + 1);
    }
  }

  lemma {:induction false} PredicateSound(l: Scalar, s: Symbols, extended: bool, depth: nat)
    requires depth <= MaxDepth && ScalarFits(l, extended, true) && depth + ScalarDepth(l) <= MaxDepth
    requires ReadPredicate(l, s, extended, depth).Done?
    ensures var r := ReadPredicate(l, s, extended, depth);
      && WriteScalar(l, s) == WriteTerm(r.node, r.rest) && TermFits(r.node, extended)
      && depth + TermDepth(r.node) - 1 <= MaxDepth
    decreases Length(s), 2
  {
    hide ReadScalar, ReadScalars, ReadCondition, ReadTerm, ScalarFits, ScalarsFit, ScalarDepth, ScalarsDepth;
    hide WriteScalar, WriteScalars;
    if s.Then? && (s.head.Compare? || s.head == Key(LIKE)) {
      ScalarSound(s.tail, extended, true, depth);
    } else if IsKey(s, IS) {
    } else {
      var k := if IsKey(s, NOT) then s.tail else s;
      if IsKey(k, IN) {
        assert Length(k.tail.tail) < Length(k.tail) < Length(k) <= Length(s);
        ScalarsSound(k.tail.tail, extended, depth);
      }
    }
  }

  lemma {:induction false} ConditionSound(s: Symbols, extended: bool, depth: nat)
    requires depth <= MaxDepth
    requires ReadCondition(s, extended, depth).Done?
    ensures var r := ReadCondition(s, extended, depth);
      && s == WriteCondition(r.node, r.rest) && ConditionFits(r.node, extended)
      && depth + ConditionDepth(r.node) <= MaxDepth
    decreases Length(s), 3
  {
    TermSound(s, extended, depth);
    var t := ReadTerm(s, extended, depth);
    if IsKey(t.rest, AND) || IsKey(t.rest, OR) {
      ConditionSound(t.rest.tail, extended, depth);
    }
  }

  lemma {:induction false} ItemsSound(s: Symbols, extended: bool)
    requires ReadItems(s, extended).Done?
    ensures var r := ReadItems(s, extended);
      s == WriteItems(r.node, r.rest) && ItemsFit(r.node, extended) && ItemsDepth(r.node) <= MaxDepth
    decreases Length(s)
  {
    ScalarSound(s, extended, extended, 0);
    var x := ReadItem(s, extended);
    if StartsWith(x.rest, Comma) {
      ItemsSound(x.rest.tail, extended);
    }
  }

  lemma {:induction false} OrderSound(s: Symbols, extended: bool)
    requires ReadOrder(s, extended).Done?
    ensures var r := ReadOrder(s, extended);
      s == WriteOrder(r.node, r.rest) && OrderFits(r.node, extended) && OrderDepth(r.node) <= MaxDepth
    decreases Length(s)
  {
    ScalarSound(s, extended, false, 0);
    var x := ReadKey(s, extended);
    if StartsWith(x.rest, Comma) {
      OrderSound(x.rest.tail, extended);
    }
  }

  lemma TableSound(s: Symbols)
    requires ReadTable(s).Done?
    ensures var r := ReadTable(s); s == WriteTable(r.node, r.rest)
  {
  }

  lemma JoinWordsSound(s: Symbols)
    requires ReadJoinWords(s).Done? && ReadJoinWords(s).node.Some?
    ensures var r := ReadJoinWords(s); s == WriteJoinWords(r.node.value, r.rest) && JoinWordsFit(r.node.value)
  {
  }

  lemma {:induction false} JoinsSound(s: Symbols)
    requires ReadJoins(s).Done?
    ensures var r := ReadJoins(s);
      s == WriteJoins(r.node, r.rest) && JoinsFit(r.node) && JoinsDepth(r.node) <= MaxDepth
    decreases Length(s)
  {
    if StartsWith(s, Comma) {
      TableSound(s.tail);
      JoinsSound(ReadTable(s.tail).rest);
    } else if ReadJoinWords(s).node.Some? {
      var words := ReadJoinWords(s);
      JoinWordsSound(s);
      TableSound(words.rest);
      var t := ReadTable(words.rest);
      if IsKey(t.rest, ON) {
        ConditionSound(t.rest.tail, true, 0);
      }
      JoinsSound(ReadOn(t.rest, words.node.value.kind == Some(CROSS)).rest);
    }
  }

  lemma FromSound(s: Symbols, extended: bool)
    requires ReadFrom(s, extended).Done?
    ensures var r := ReadFrom(s, extended);
      s == WriteFrom(r.node, r.rest) && TablesFit(r.node, extended) && TablesDepth(r.node) <= MaxDepth
  {
    if extended && IsKey(s, FROM) {
      TableSound(s.tail);
      JoinsSound(ReadTable(s.tail).rest);
    }
  }

  lemma ConditionClauseSound(s: Symbols, first: Keyword, extended: bool)
    requires ReadConditionClause(s, first, extended).Done?
    ensures var r := ReadConditionClause(s, first, extended);
      && s == WriteConditionClause(first, r.node, r.rest)
      && (r.node.Some? ==> ConditionFits(r.node.value, extended)) && OptionalDepth(r.node) <= MaxDepth
  {
    if IsKey(s, first) {
      ConditionSound(s.tail, extended, 0);
    }
  }

  lemma OrderClauseSound(s: Symbols, first: Keyword, extended: bool)
    requires ReadOrderClause(s, first, extended).Done?
    ensures var r := ReadOrderClause(s, first, extended);
      && s == WriteOrderClause(first, r.node, r.rest)
      && (r.node.Some? ==> OrderFits(r.node.value, extended))
      && OptionalOrderDepth(r.node) <= MaxDepth
  {
    if IsKey(s, first) {
      OrderSound(s.tail.tail, extended);
    }
  }

  lemma ClausesSound(s: Symbols, extended: bool)
    requires ReadClauses(s, extended).Done?
    ensures var r := ReadClauses(s, extended);
      s == WriteClauses(r.node, r.rest) && ClausesFit(r.node, extended) && ClausesDepth(r.node) <= MaxDepth
  {
    hide ReadConditionClause, ReadOrderClause;
    ConditionClauseSound(s, WHERE, extended);
    var k := ReadConditionClause(s, WHERE, extended).rest;
    if extended {
      OrderClauseSound(k, GROUP, extended);
      k := ReadOrderClause(k, GROUP, extended).rest;
      ConditionClauseSound(k, HAVING, extended);
      k := ReadConditionClause(k, HAVING, extended).rest;
    }
    OrderClauseSound(k, ORDER, extended);
  }

  lemma SelectSound(s: Symbols, extended: bool)
    requires ReadSelect(s, extended).Done?
    ensures var r := ReadSelect(s, extended);
      s == WriteSelect(r.node, r.rest) && SelectFits(r.node, extended) && SelectDepth(r.node) <= MaxDepth
  {
    var start := if extended && IsKey(s.tail, DISTINCT) then s.tail.tail else s.tail;
    if !StartsWith(start, Star) {
      ItemsSound(start, extended);
    }
    var k := ReadSelection(start, extended).rest;
    FromSound(k, extended);
    ClausesSound(ReadFrom(k, extended).rest, extended);
  }

  lemma StatementSound(s: Symbols)
    requires ReadStatement(s).Done? && ReadStatement(s).rest == End
    ensures var a := ReadStatement(s).node;
      s == WriteStatement(a) && StatementFits(a) && StatementDepth(a) <= MaxDepth
  {
    if IsKey(s, SELECT) {
      SelectSound(s, true);
    }
  }

  // ----- What was written is read: the reader gives back the very tree ---------------------------

  /** Symbols that may come after a scalar without becoming part of it. */
  predicate EndsScalar(k: Symbols) {
    k.Then? ==> !k.head.Open? && !k.head.Dot?
  }

  predicate EndsTerm(k: Symbols) {
    && EndsScalar(k)
    && (k.Then? ==> !k.head.Compare?)
    && (k.Then? && k.head.Key? ==> k.head.keyword !in {LIKE, IS, NOT, IN})
  }

  predicate EndsCondition(k: Symbols) {
    EndsTerm(k) && !IsKey(k, AND) && !IsKey(k, OR)
  }

  predicate IsCall(a: Scalar) {
    a.CountAll? || a.Aggregate? || a.Fold? || a.Replaced?
  }

  lemma {:induction false} ScalarComplete(a: Scalar, k: Symbols, extended: bool, literal: bool, depth: nat)
    requires ScalarFits(a, extended, literal) && depth + ScalarDepth(a) <= MaxDepth && EndsScalar(k)
    ensures ReadScalar(WriteScalar(a, k), extended, literal, depth) == Done(a, k)
    decreases a, 2
  {
    if IsCall(a) {
      CallComplete(a, k, extended, literal, depth + 1);
    }
  }

  lemma {:induction false} CallComplete(a: Scalar, k: Symbols, extended: bool, literal: bool, depth: nat)
    requires IsCall(a) && ScalarFits(a, extended, literal) && depth + ScalarDepth(a) - 1 <= MaxDepth
    ensures var s := WriteScalar(a, k);
      && s.Then? && s.head.Name? && StartsWith(s.tail, Open(true))
      && ReadCall(s.head.name, s.tail.tail, extended, depth) == Done(a, k)
    decreases a, 1
  {
    match a
    case CountAll => FnNameKnown(Count);
    case Aggregate(f, d, c) =>
      FnNameKnown(f);
      AggregateComplete(f, d, c, k, depth);
    case Fold(f, x) =>
      FnNameKnown(f);
      ScalarComplete(x, Then(Close, k), extended, true, depth);
    case Replaced(_, _, _) =>
      FnNameKnown(Replace);
      ReplaceComplete(a, k, extended, depth);
  }

  lemma {:induction false} ReplaceComplete(a: Scalar, k: Symbols, extended: bool, depth: nat)
    requires a.Replaced? && ScalarFits(a, extended, true) && depth + ScalarDepth(a) - 1 <= MaxDepth
    ensures var s := WriteScalar(a, k);
      && s.Then? && s.tail.Then?
      && ReadCall(FnName(Replace), s.tail.tail, extended, depth) == Done(a, k)
    decreases a, 0
  {
    hide FnOf, ReadScalar, ReadScalars, ReadAggregate, ReadCondition, ReadTerm, ReadPredicate;
    FnNameKnown(Replace);
    var zk := WriteScalar(a.text2, Then(Close, k));
    var yk := WriteScalar(a.text1, Then(Comma, zk));
    ScalarComplete(a.text2, Then(Close, k), extended, true, depth);
    ScalarComplete(a.text1, Then(Comma, zk), extended, true, depth);
    ScalarComplete(a.text0, Then(Comma, yk), extended, true, depth);
  }

  lemma {:induction false} AggregateComplete(f: Fn, d: bool, c: Condition, k: Symbols, depth: nat)
    requires ConditionFits(c, true) && depth + ConditionDepth(c) <= MaxDepth
    ensures ReadAggregate(f, Writing(d, Key(DISTINCT), WriteCondition(c, Then(Close, k))), depth) ==
      Done(Aggregate(f, d, c), k)
    decreases c, 1
  {
    ConditionComplete(c, Then(Close, k), true, depth);
    ConditionStart(WriteCondition(c, Then(Close, k)), true, depth);
  }

  /** Nothing that reads as a scalar starts with a star, a parenthesis or another keyword. */
  lemma ScalarStart(s: Symbols, extended: bool, literal: bool, depth: nat)
    requires ReadScalar(s, extended, literal, depth).Done?
    ensures s.Then? && !s.head.Star? && !s.head.Open? && (s.head.Key? ==> s.head.keyword in {NULL, TRUE, FALSE})
  {
  }

  lemma ConditionStart(s: Symbols, extended: bool, depth: nat)
    requires ReadCondition(s, extended, depth).Done?
    ensures s.Then? && !s.head.Star? && (s.head.Key? ==> s.head.keyword in {NOT, NULL, TRUE, FALSE})
  {
    if !s.head.Open? && s.head != Key(NOT) {
      ScalarStart(s, extended, true, depth + 1);
    }
  }

  lemma {:induction false} ScalarsComplete(a: Scalars, k: Symbols, extended: bool, depth: nat)
    requires ScalarsFit(a, extended) && depth + ScalarsDepth(a) <= MaxDepth && EndsScalar(k) && !StartsWith(k, Comma)
    ensures ReadScalars(WriteScalars(a, k), extended, depth) == Done(a, k)
    decreases a
  {
    match a
    case Only(x) => ScalarComplete(x, k, extended, true, depth);
    case More(x, r) =>
      ScalarComplete(x, Then(Comma, WriteScalars(r, k)), extended, true, depth);
      ScalarsComplete(r, k, extended, depth);
  }

  lemma {:induction false} TermComplete(t: Term, k: Symbols, extended: bool, depth: nat)
    requires TermFits(t, extended) && depth + TermDepth(t) <= MaxDepth && EndsTerm(k)
    ensures ReadTerm(WriteTerm(t, k), extended, depth) == Done(t, k)
    decreases t, 2
  {
    match t
    case Negated(u) => TermComplete(u, k, extended, depth + 1);
    case Group(g, c) => ConditionComplete(c, Then(Close, k), extended, depth + 1);
    case _ => OperandsComplete(t, k, extended, depth);
  }

  lemma {:induction false} OperandsComplete(t: Term, k: Symbols, extended: bool, depth: nat)
    requires !t.Negated? && !t.Group?
    requires TermFits(t, extended) && depth + TermDepth(t) <= MaxDepth && EndsTerm(k)
    ensures ReadTerm(WriteTerm(t, k), extended, depth) == Done(t, k)
    decreases t, 1
  {
    LeftComplete(t, k, extended, depth + 1);
    ScalarStart(WriteTerm(t, k), extended, true, depth + 1);
    PredicateComplete(t, k, extended, depth + 1);
  }

  lemma {:induction false} LeftComplete(t: Term, k: Symbols, extended: bool, depth: nat)
    requires !t.Negated? && !t.Group?
    requires TermFits(t, extended) && depth + TermDepth(t) - 1 <= MaxDepth && EndsTerm(k)
    ensures ReadScalar(WriteTerm(t, k), extended, true, depth) == Done(t.left, AfterLeft(t, k))
    decreases t, 0
  {
    ScalarComplete(t.left, AfterLeft(t, k), extended, true, depth);
  }

  /** The part of a written term that follows its left operand. */
  function AfterLeft(t: Term, k: Symbols): Symbols
    requires !t.Negated? && !t.Group?
  {
    match t
    case Compared(_, op, r) => Then(Compare(op), WriteScalar(r, k))
    case Like(_, r) => Then(Key(LIKE), WriteScalar(r, k))
    case IsNull(_, n) => Then(Key(IS), Writing(n, Key(NOT), Then(Key(NULL), k)))
    case InList(_, n, g, xs) => Writing(n, Key(NOT), Then(Key(IN), Then(Open(g), WriteScalars(xs, Then(Close, k)))))
    case Bare(_) => k
  }

  lemma {:induction false} PredicateComplete(t: Term, k: Symbols, extended: bool, depth: nat)
    requires !t.Negated? && !t.Group?
    requires TermFits(t, extended) && depth + TermDepth(t) - 1 <= MaxDepth && EndsTerm(k)
    ensures ReadPredicate(t.left, AfterLeft(t, k), extended, depth) == Done(t, k)
    decreases t, 0
  {
    hide ReadScalar, ReadScalars, ReadCondition, ReadTerm;
    match t
    case Compared(_, _, r) => ScalarComplete(r, k, extended, true, depth);
    case Like(_, r) => ScalarComplete(r, k, extended, true, depth);
    case IsNull(_, _) =>
    case InList(_, _, _, xs) => ScalarsComplete(xs, Then(Close, k), extended, depth);
    case Bare(_) =>
  }

  lemma {:induction false} ConditionComplete(c: Condition, k: Symbols, extended: bool, depth: nat)
    requires ConditionFits(c, extended) && depth + ConditionDepth(c) <= MaxDepth && EndsCondition(k)
    ensures ReadCondition(WriteCondition(c, k), extended, depth) == Done(c, k)
    decreases c, 0
  {
    match c
    case One(t) => TermComplete(t, k, extended, depth);
    case Chain(t, j, r) =>
      TermComplete(t, Then(Key(j), WriteCondition(r, k)), extended, depth);
      ConditionComplete(r, k, extended, depth);
  }

  predicate EndsItem(k: Symbols) {
    EndsScalar(k) && !IsKey(k, AS)
  }

  lemma ItemComplete(i: Item, k: Symbols, extended: bool)
    requires ItemFits(i, extended) && ScalarDepth(i.value) <= MaxDepth && EndsItem(k)
    ensures ReadItem(WriteItem(i, k), extended) == Done(i, k)
  {
    var after := if i.alias.Some? then Then(Key(AS), Then(Name(i.alias.value), k)) else k;
    ScalarComplete(i.value, after, extended, extended, 0);
  }

  lemma {:induction false} ItemsComplete(a: Items, k: Symbols, extended: bool)
    requires ItemsFit(a, extended) && ItemsDepth(a) <= MaxDepth && EndsItem(k) && !StartsWith(k, Comma)
    ensures ReadItems(WriteItems(a, k), extended) == Done(a, k)
    ensures WriteItems(a, k).Then? && WriteItems(a, k).head != Star && !IsKey(WriteItems(a, k), DISTINCT)
  {
    match a
    case LastItem(i) =>
      ItemComplete(i, k, extended);
      ScalarStart(WriteItems(a, k), extended, extended, 0);
    case MoreItems(i, r) =>
      ItemsComplete(r, k, extended);
      ItemComplete(i, Then(Comma, WriteItems(r, k)), extended);
      ScalarStart(WriteItems(a, k), extended, extended, 0);
  }

  predicate EndsKey(k: Symbols) {
    EndsScalar(k) && !IsKey(k, ASC) && !IsKey(k, DESC)
  }

  lemma KeyComplete(o: OrderKey, k: Symbols, extended: bool)
    requires KeyFits(o, extended) && ScalarDepth(o.value) <= MaxDepth && EndsKey(k)
    ensures ReadKey(WriteKey(o, k), extended) == Done(o, k)
  {
    ScalarComplete(o.value, if o.direction.Some? then Then(Key(o.direction.value), k) else k, extended, false, 0);
  }

  lemma {:induction false} OrderComplete(o: Order, k: Symbols, extended: bool)
    requires OrderFits(o, extended) && OrderDepth(o) <= MaxDepth && EndsKey(k) && !StartsWith(k, Comma)
    ensures ReadOrder(WriteOrder(o, k), extended) == Done(o, k)
  {
    match o
    case LastKey(x) => KeyComplete(x, k, extended);
    case MoreKeys(x, r) =>
      OrderComplete(r, k, extended);
      KeyComplete(x, Then(Comma, WriteOrder(r, k)), extended);
  }

  predicate EndsTable(k: Symbols) {
    k.Then? ==> !k.head.Name? && !k.head.Dot? && k.head != Key(AS)
  }

  lemma TableComplete(t: Table, k: Symbols)
    requires EndsTable(k)
    ensures ReadTable(WriteTable(t, k)) == Done(t, k)
  {
  }

  lemma JoinWordsComplete(w: JoinWords, k: Symbols)
    requires JoinWordsFit(w)
    ensures ReadJoinWords(WriteJoinWords(w, k)) == Done(Some(w), k)
    ensures EndsTable(WriteJoinWords(w, k)) && EndsCondition(WriteJoinWords(w, k))
    ensures !IsKey(WriteJoinWords(w, k), ON) && !StartsWith(WriteJoinWords(w, k), Comma)
  {
  }

  /** The symbols that may come after a FROM clause. */
  predicate EndsJoins(k: Symbols) {
    k.Then? ==> k.head.Key? && k.head.keyword in {WHERE, GROUP, HAVING, ORDER, LIMIT}
  }

  lemma {:induction false} JoinsComplete(j: Joins, k: Symbols)
    requires JoinsFit(j) && JoinsDepth(j) <= MaxDepth && EndsJoins(k)
    ensures ReadJoins(WriteJoins(j, k)) == Done(j, k)
    ensures EndsTable(WriteJoins(j, k)) && EndsCondition(WriteJoins(j, k)) && !IsKey(WriteJoins(j, k), ON)
  {
    match j
    case NoJoin =>
    case CommaJoin(t, r) =>
      JoinsComplete(r, k);
      TableComplete(t, WriteJoins(r, k));
    case WordJoin(w, t, on, r) =>
      var rest := WriteJoins(r, k);
      JoinsComplete(r, k);
      OnComplete(on, rest, w.kind == Some(CROSS));
      TableComplete(t, WriteOn(on, rest));
      JoinWordsComplete(w, WriteTable(t, WriteOn(on, rest)));
  }

  lemma OnComplete(on: Option<Condition>, k: Symbols, cross: bool)
    requires (on.None? ==> cross) && (on.Some? ==> ConditionFits(on.value, true)) && OptionalDepth(on) <= MaxDepth
    requires EndsTable(k) && EndsCondition(k) && !IsKey(k, ON)
    ensures ReadOn(WriteOn(on, k), cross) == Done(on, k) && EndsTable(WriteOn(on, k))
  {
    if on.Some? {
      ConditionComplete(on.value, k, true, 0);
    }
  }

  lemma FromComplete(t: Option<Tables>, k: Symbols, extended: bool)
    requires TablesFit(t, extended) && TablesDepth(t) <= MaxDepth && EndsJoins(k)
    ensures ReadFrom(WriteFrom(t, k), extended) == Done(t, k)
  {
    if extended && t.Some? {
      JoinsComplete(t.value.joins, k);
      TableComplete(t.value.first, WriteJoins(t.value.joins, k));
    }
  }

  lemma ConditionClauseComplete(first: Keyword, c: Option<Condition>, k: Symbols, extended: bool)
    requires EndsJoins(k) && !IsKey(k, first)
    requires (c.Some? ==> ConditionFits(c.value, extended)) && OptionalDepth(c) <= MaxDepth
    ensures ReadConditionClause(WriteConditionClause(first, c, k), first, extended) == Done(c, k)
  {
    if c.Some? {
      ConditionComplete(c.value, k, extended, 0);
    }
  }

  lemma OrderClauseComplete(first: Keyword, o: Option<Order>, k: Symbols, extended: bool)
    requires EndsJoins(k) && !IsKey(k, first)
    requires (o.Some? ==> OrderFits(o.value, extended)) && OptionalOrderDepth(o) <= MaxDepth
    ensures ReadOrderClause(WriteOrderClause(first, o, k), first, extended) == Done(o, k)
  {
    hide ReadOrder, OrderFits;
    if o.Some? {
      OrderComplete(o.value, k, extended);
    }
  }

  lemma ClausesComplete(c: Clauses, extended: bool)
    requires ClausesFit(c, extended) && ClausesDepth(c) <= MaxDepth
    ensures ReadClauses(WriteClauses(c, End), extended) == Done(c, End)
    ensures EndsJoins(WriteClauses(c, End))
  {
    var k := WriteOptionalLimit(c.limit, End);
    assert ReadOptionalLimit(k) == Done(c.limit, End);
    OrderClauseComplete(ORDER, c.order, k, extended);
    k := WriteOrderClause(ORDER, c.order, k);
    if extended {
      ConditionClauseComplete(HAVING, c.having, k, extended);
      k := WriteConditionClause(HAVING, c.having, k);
      OrderClauseComplete(GROUP, c.grouping, k, extended);
      k := WriteOrderClause(GROUP, c.grouping, k);
    }
    ConditionClauseComplete(WHERE, c.filter, k, extended);
  }

  lemma SelectComplete(q: Select, extended: bool)
    requires SelectFits(q, extended) && SelectDepth(q) <= MaxDepth
    ensures ReadSelect(WriteSelect(q, End), extended) == Done(q, End)
  {
    hide ReadClauses, WriteClauses, ReadFrom, ReadItem;
    var k := WriteClauses(q.clauses, End);
    ClausesComplete(q.clauses, extended);
    FromComplete(q.tables, k, extended);
    k := WriteFrom(q.tables, k);
    if q.selection.Listed? {
      ItemsComplete(q.selection.items, k, extended);
    }
  }

  lemma StatementComplete(a: Statement)
    requires StatementFits(a) && StatementDepth(a) <= MaxDepth
    ensures ReadStatement(WriteStatement(a)) == Done(a, End)
  {
    hide ReadSelect, SelectFits, SelectDepth;
    if a.Query? {
      SelectComplete(a.select, true);
    }
  }

  // ----- The two dialects and the language ---------------------------------------------------------

  /** s is a statement of the extended dialect within the nesting limit. */
  ghost predicate IsStatement(s: Symbols) {
    exists a: Statement :: StatementFits(a) && StatementDepth(a) <= 64 && WriteStatement(a) == s
  }

  /** s is a SELECT of the older dialect within the nesting limit. */
  ghost predicate IsLegacySelect(s: Symbols) {
    exists q: Select :: SelectFits(q, false) && SelectDepth(q) <= 64 && WriteSelect(q, End) == s
  }

  predicate AcceptsStatement(s: Symbols) {
    var r := ReadStatement(s);
    r.Done? && r.rest == End
  }

  predicate AcceptsLegacySelect(s: Symbols) {
    var r := ReadSelect(s, false);
    r.Done? && r.rest == End
  }

  lemma StatementsExactly(s: Symbols)
    ensures AcceptsStatement(s) <==> IsStatement(s)
  {
    if AcceptsStatement(s) {
      StatementSound(s);
    }
    if IsStatement(s) {
      var a: Statement :| StatementFits(a) && StatementDepth(a) <= MaxDepth && WriteStatement(a) == s;
      StatementComplete(a);
    }
  }

  lemma LegacySelectsExactly(s: Symbols)
    ensures AcceptsLegacySelect(s) <==> IsLegacySelect(s)
  {
    if AcceptsLegacySelect(s) {
      SelectSound(s, false);
    }
    if IsLegacySelect(s) {
      var q: Select :| SelectFits(q, false) && SelectDepth(q) <= MaxDepth && WriteSelect(q, End) == s;
      SelectComplete(q, false);
    }
  }

  lemma StatementsUnambiguous(a: Statement, b: Statement)
    requires StatementFits(a) && StatementDepth(a) <= 64
    requires StatementFits(b) && StatementDepth(b) <= 64
    requires WriteStatement(a) == WriteStatement(b)
    ensures a == b
  {
    StatementComplete(a);
    StatementComplete(b);
  }

  lemma {:induction false} ScalarFitsMore(a: Scalar, literal: bool, literal': bool)
    requires ScalarFits(a, false, literal) && (literal ==> literal')
    ensures ScalarFits(a, true, literal')
  {
    match a
    case Fold(_, x) => ScalarFitsMore(x, true, true);
    case Replaced(x, y, z) =>
      ScalarFitsMore(x, true, true);
      ScalarFitsMore(y, true, true);
      ScalarFitsMore(z, true, true);
    case _ =>
  }

  lemma {:induction false} TermFitsMore(t: Term)
    requires TermFits(t, false)
    ensures TermFits(t, true)
    decreases t, 0
  {
    match t
    case Group(_, c) => ConditionFitsMore(c);
    case Compared(l, _, r) => ScalarFitsMore(l, true, true); ScalarFitsMore(r, true, true);
    case Like(l, r) => ScalarFitsMore(l, true, true); ScalarFitsMore(r, true, true);
    case IsNull(l, _) => ScalarFitsMore(l, true, true);
  }

  lemma {:induction false} ConditionFitsMore(c: Condition)
    requires ConditionFits(c, false)
    ensures ConditionFits(c, true)
    decreases c, 1
  {
    TermFitsMore(c.term);
    if c.Chain? {
      ConditionFitsMore(c.rest);
    }
  }

  lemma {:induction false} ItemsFitMore(a: Items)
    requires ItemsFit(a, false)
    ensures ItemsFit(a, true)
  {
    ScalarFitsMore(a.item.value, false, true);
    if a.MoreItems? {
      ItemsFitMore(a.rest);
    }
  }

  lemma {:induction false} OrderFitsMore(o: Order)
    requires OrderFits(o, false)
    ensures OrderFits(o, true)
  {
    ScalarFitsMore(o.key.value, false, false);
    if o.MoreKeys? {
      OrderFitsMore(o.rest);
    }
  }

  lemma SelectFitsMore(q: Select)
    requires SelectFits(q, false)
    ensures SelectFits(q, true)
  {
    if q.selection.Listed? {
      ItemsFitMore(q.selection.items);
    }
    if q.clauses.filter.Some? {
      ConditionFitsMore(q.clauses.filter.value);
    }
    if q.clauses.order.Some? {
      OrderFitsMore(q.clauses.order.value);
    }
  }

  /** Whatever the older dialect accepts the extended one accepts too, with the same tree. */
  lemma LegacyWithinExtended(s: Symbols)
    requires AcceptsLegacySelect(s)
    ensures AcceptsStatement(s)
    ensures ReadStatement(s) == Done(Query(ReadSelect(s, false).node), End)
  {
    SelectSound(s, false);
    var q := ReadSelect(s, false).node;
    SelectFitsMore(q);
    SelectComplete(q, true);
  }
}
