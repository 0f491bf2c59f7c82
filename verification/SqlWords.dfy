/** The reserved words and the known functions of the SQL reader in internal/policy/mysql.go. */
module SqlWords {
  import opened Ascii

  /** The words that reservedSQLWord answers true for. */
  datatype Keyword =
    | SELECT | FROM | WHERE | ORDER | BY | LIMIT | OFFSET
    | AND | OR | AS | ASC | DESC | LIKE | IS | NOT | NULL
    | TRUE | FALSE | JOIN | INNER | LEFT | RIGHT | CROSS | ON
    | UNION | INTO | OUTFILE | DUMPFILE | FOR | LOCK | PROCEDURE
    | SHOW | TABLES | COLUMNS | FIELDS | INDEX | INDEXES | KEYS
    | CREATE | TABLE | VIEW | DESCRIBE | IN
    | GROUP | HAVING | OUTER | DISTINCT | USING | WITH

  /** The eight functions that may be called. */
  datatype Fn = Count | Sum | Avg | Min | Max | Upper | Lower | Replace

  function Spelling(k: Keyword): string {
    match k
    case SELECT => "SELECT" case FROM => "FROM" case WHERE => "WHERE" case ORDER => "ORDER" case BY => "BY"
    case LIMIT => "LIMIT" case OFFSET => "OFFSET" case AND => "AND" case OR => "OR" case AS => "AS"
    case ASC => "ASC" case DESC => "DESC" case LIKE => "LIKE" case IS => "IS" case NOT => "NOT"
    case NULL => "NULL" case TRUE => "TRUE" case FALSE => "FALSE" case JOIN => "JOIN" case INNER => "INNER"
    case LEFT => "LEFT" case RIGHT => "RIGHT" case CROSS => "CROSS" case ON => "ON" case UNION => "UNION"
    case INTO => "INTO" case OUTFILE => "OUTFILE" case DUMPFILE => "DUMPFILE" case FOR => "FOR" case LOCK => "LOCK"
    case PROCEDURE => "PROCEDURE" case SHOW => "SHOW" case TABLES => "TABLES" case COLUMNS => "COLUMNS"
    case FIELDS => "FIELDS" case INDEX => "INDEX" case INDEXES => "INDEXES" case KEYS => "KEYS"
    case CREATE => "CREATE" case TABLE => "TABLE" case VIEW => "VIEW" case DESCRIBE => "DESCRIBE" case IN => "IN"
    case GROUP => "GROUP" case HAVING => "HAVING" case OUTER => "OUTER" case DISTINCT => "DISTINCT"
    case USING => "USING" case WITH => "WITH"
  }

  function FnName(f: Fn): string {
    match f
    case Count => "COUNT" case Sum => "SUM" case Avg => "AVG" case Min => "MIN" case Max => "MAX"
    case Upper => "UPPER" case Lower => "LOWER" case Replace => "REPLACE"
  }

  /** The only keyword that w can be, judged by its length and first letters. */
  function Candidate(w: string): Keyword {
    var n := |w|;
    if n == 2 then
      if w[0] == 'B' then BY else if w[0] == 'A' then AS
      else if w[0] == 'O' then (if w[1] == 'R' then OR else ON)
      else if w[1] == 'S' then IS else IN
    else if n == 3 then
      if w[0] == 'A' then (if w[1] == 'N' then AND else ASC)
      else if w[0] == 'N' then NOT else FOR
    else if n == 4 then
      if w[0] == 'F' then FROM else if w[0] == 'D' then DESC else if w[0] == 'N' then NULL
      else if w[0] == 'T' then TRUE else if w[0] == 'J' then JOIN else if w[0] == 'I' then INTO
      else if w[0] == 'S' then SHOW else if w[0] == 'K' then KEYS else if w[0] == 'V' then VIEW
      else if w[0] == 'W' then WITH
      else if w[1] == 'I' then LIKE else if w[1] == 'E' then LEFT else LOCK
    else if n == 5 then
      if w[0] == 'W' then WHERE else if w[0] == 'L' then LIMIT else if w[0] == 'F' then FALSE
      else if w[0] == 'R' then RIGHT else if w[0] == 'C' then CROSS else if w[0] == 'T' then TABLE
      else if w[0] == 'G' then GROUP
      else if w[0] == 'O' then (if w[1] == 'R' then ORDER else OUTER)
      else if w[0] == 'I' then (if w[2] == 'N' then INNER else INDEX)
      else if w[1] == 'N' then UNION else USING
    else if n == 6 then
      if w[0] == 'S' then SELECT else if w[0] == 'O' then OFFSET else if w[0] == 'T' then TABLES
      else if w[0] == 'F' then FIELDS else if w[0] == 'C' then CREATE else HAVING
    else if n == 7 then
      if w[0] == 'O' then OUTFILE else if w[0] == 'C' then COLUMNS else INDEXES
    else if n == 8 then
      if w[1] == 'U' then DUMPFILE else if w[1] == 'E' then DESCRIBE else DISTINCT
    else PROCEDURE
  }

  function FnCandidate(w: string): Fn {
    if |w| == 7 then Replace
    else if |w| == 3 then
      if w[0] == 'S' then Sum else if w[0] == 'A' then Avg else if w[1] == 'I' then Min else Max
    else if |w| == 5 then
      if w[0] == 'C' then Count else if w[0] == 'U' then Upper else Lower
    else Count
  }

  lemma SpellingDistinct()
    ensures forall j, k :: Spelling(j) == Spelling(k) ==> j == k
  {
    forall k: Keyword
      ensures Candidate(Spelling(k)) == k
    {
      CandidateKnown(k);
    }
  }

  lemma CandidateKnown(k: Keyword)
    ensures Candidate(Spelling(k)) == k
  {
    hide Candidate, Spelling;
    if IsShort(k) {
      ShortCandidateKnown(k);
    } else {
      LongCandidateKnown(k);
    }
  }

  predicate IsShort(k: Keyword) {
    match k
    case BY | OR | AS | IS | ON | IN | AND | ASC | NOT | FOR | FROM | DESC | LIKE | NULL | TRUE | JOIN | LEFT
       | INTO | LOCK | SHOW | KEYS | VIEW | WITH => true
    case _ => false
  }

  lemma ShortCandidateKnown(k: Keyword)
    requires IsShort(k)
    ensures Candidate(Spelling(k)) == k
  {
  }

  lemma LongCandidateKnown(k: Keyword)
    requires !IsShort(k)
    ensures Candidate(Spelling(k)) == k
  {
  }

  lemma FnNameDistinct()
    ensures forall f, g :: FnName(f) == FnName(g) ==> f == g
  {
    forall f: Fn
      ensures FnCandidate(FnName(f)) == f
    {
    }
  }

  /** The keyword spelled w, if there is one. */
  function KeywordOf(w: string): (r: Option<Keyword>)
    ensures r.Some? ==> Spelling(r.value) == w
  {
    if exists k: Keyword :: Spelling(k) == w then
      SpellingDistinct();
      var k: Keyword :| Spelling(k) == w;
      Some(k)
    else None
  }

  /** The known function named w, if there is one. */
  function FnOf(w: string): (r: Option<Fn>)
    ensures r.Some? ==> FnName(r.value) == w
  {
    if exists f: Fn :: FnName(f) == w then
      FnNameDistinct();
      var f: Fn :| FnName(f) == w;
      Some(f)
    else None
  }

  lemma SpellingKnown(k: Keyword)
    ensures KeywordOf(Spelling(k)) == Some(k)
  {
    SpellingDistinct();
  }

  lemma SpellingIsUpper(k: Keyword)
    ensures ToUpper(Spelling(k)) == Spelling(k)
  {
    forall i | 0 <= i < |Spelling(k)|
      ensures 'A' <= Spelling(k)[i] <= 'Z'
    {
      LettersAreCapitals(k, i);
    }
  }

  lemma LettersAreCapitals(k: Keyword, i: nat)
    requires i < |Spelling(k)|
    ensures 'A' <= Spelling(k)[i] <= 'Z'
  {
    hide Spelling;
    if IsShort(k) {
      ShortLettersAreCapitals(k, i);
    } else {
      LongLettersAreCapitals(k, i);
    }
  }

  lemma ShortLettersAreCapitals(k: Keyword, i: nat)
    requires IsShort(k) && i < |Spelling(k)|
    ensures 'A' <= Spelling(k)[i] <= 'Z'
  {
  }

  lemma LongLettersAreCapitals(k: Keyword, i: nat)
    requires !IsShort(k) && i < |Spelling(k)|
    ensures 'A' <= Spelling(k)[i] <= 'Z'
  {
  }

  lemma FnNameKnown(f: Fn)
    ensures FnOf(FnName(f)) == Some(f)
  {
    FnNameDistinct();
  }
}
