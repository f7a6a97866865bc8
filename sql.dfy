/**
 * The SQL statements the API handlers send: their text, with a `?` for
 * every bound value, and the values bound to them. White space inside a
 * statement is normalised to single spaces; a placeholder is a `?` character.
 */
module Sql {
  import opened Common
  import opened Api

  datatype Statement =
    | SelectRows(wh: seq<Clause>, params: seq<Param>)
    | SelectOne(id: int)
    | InsertOne(values: seq<Param>)
    | UpdateOne(sets: seq<string>, values: seq<Param>, id: int)
    | DeleteOne(id: int)

  function ClauseTexts(wh: seq<Clause>): (r: seq<string>)
    ensures |r| == |wh| && forall i | 0 <= i < |wh| :: r[i] == ClauseText(wh[i])
  {
    seq(|wh|, i requires 0 <= i < |wh| => ClauseText(wh[i]))
  }

  /** The WHERE part of the search query: nothing at all when there are no clauses. */
  function WhereSql(wh: seq<Clause>): string
  {
    if wh == [] then "" else "WHERE " + Join(ClauseTexts(wh), " AND ")
  }

  /** The search query up to its WHERE part: the eleven columns it returns. */
  function SearchHead(): string
  {
    "SELECT id, mobileCode, nameEN, districtEN, " + "locationEN, addressEN, dayOfWeekCode, "
    + "openHour, closeHour, latitude, longitude " + "FROM mobilepost "
  }

  /** The search query after its WHERE part: the fixed order and the cap of 500 rows. */
  function SearchTail(): string
  {
    " ORDER BY dayOfWeekCode, " + "mobileCode, seq" + " LIMIT " + "500"
  }

  function SetTexts(sets: seq<string>): (r: seq<string>)
    ensures |r| == |sets| && forall i | 0 <= i < |sets| :: r[i] == sets[i] + " = ?"
  {
    seq(|sets|, i requires 0 <= i < |sets| => sets[i] + " = ?")
  }

  /** n placeholders separated by commas. */
  function MarkList(n: nat): string
  {
    if n <= 1 then (if n == 0 then "" else "?") else "?," + MarkList(n - 1)
  }

  /** The filter `WHERE id = ?` that the single-row statements share. */
  function ByIdSql(): string { " WHERE " + ClauseText(Clause("id", Eq)) }

  /** The INSERT statement up to its list of placeholders: the nine columns it fills. */
  function InsertHead(): string
  {
    "INSERT INTO mobilepost (mobileCode, " + "dayOfWeekCode, seq, nameEN, districtEN, "
    + "locationEN, addressEN, openHour, closeHour)" + " VALUES ("
  }

  function InsertSql(): string
  {
    InsertHead() + MarkList(|InsertColumns|) + ")"
  }

  function UpdateSql(sets: seq<string>): string
  {
    "UPDATE mobilepost SET " + Join(SetTexts(sets), ", ") + ByIdSql()
  }

  /** The SQL text of a statement. */
  function StatementText(st: Statement): string
  {
    match st
    case SelectRows(wh, _) => SearchHead() + WhereSql(wh) + SearchTail()
    case SelectOne(_) => "SELECT * FROM mobilepost" + ByIdSql()
    case InsertOne(_) => InsertSql()
    case UpdateOne(sets, _, _) => UpdateSql(sets)
    case DeleteOne(_) => "DELETE FROM mobilepost" + ByIdSql()
  }

  /** The values bound to the statement's placeholders, in order; the id of an UPDATE comes last. */
  function Bound(st: Statement): seq<Param>
  {
    match st
    case SelectRows(_, params) => params
    case SelectOne(id) => [PInt(id)]
    case InsertOne(values) => values
    case UpdateOne(_, values, id) => values + [PInt(id)]
    case DeleteOne(id) => [PInt(id)]
  }

  /** The shape every statement the handlers send has. */
  predicate WellFormed(st: Statement)
  {
    match st
    case SelectRows(wh, params) => |wh| == |params| && forall i | 0 <= i < |wh| :: PlainName(wh[i].column)
    case SelectOne(_) => true
    case InsertOne(values) => |values| == |InsertColumns|
    case UpdateOne(sets, values, _) => |sets| == |values| && forall i | 0 <= i < |sets| :: PlainName(sets[i])
    case DeleteOne(_) => true
  }

  // ---------------------------------------------------------------------
  // Counting placeholders

  /** The text holds no `?` placeholder. */
  predicate MarkFree(s: string)
  {
    forall i | 0 <= i < |s| :: s[i] != '?'
  }

  lemma MarkFreeCount(s: string)
    requires MarkFree(s)
    ensures Count(s, '?') == 0
  {
    CountAbsent(s, '?');
  }

  lemma PlainNameHasNoMark(s: string)
    requires PlainName(s)
    ensures Count(s, '?') == 0
  {
    MarkFreeCount(s);
  }

  lemma CountConcat3(a: string, b: string, c: string)
    ensures Count(a + b + c, '?') == Count(a, '?') + Count(b, '?') + Count(c, '?')
  {
    CountAppend(a + b, c, '?');
    CountAppend(a, b, '?');
  }

  /** A clause on a plain column holds exactly one placeholder. */
  lemma ClauseTextMarks(c: Clause)
    requires PlainName(c.column)
    ensures Count(ClauseText(c), '?') == 1
  {
    PlainNameHasNoMark(c.column);
    MarkFreeCount(" ");
    MarkFreeCount(CmpText(c.cmp));
    CountConcat3(c.column, " ", CmpText(c.cmp));
    CountAppend(c.column + " " + CmpText(c.cmp), " ?", '?');
  }

  /** The WHERE text holds one placeholder per clause. */
  lemma WhereSqlMarks(wh: seq<Clause>)
    requires forall i | 0 <= i < |wh| :: PlainName(wh[i].column)
    ensures Count(WhereSql(wh), '?') == |wh|
  {
    if wh != [] {
      var texts := ClauseTexts(wh);
      forall i | 0 <= i < |texts| ensures Count(texts[i], '?') == 1 {
        ClauseTextMarks(wh[i]);
      }
      MarkFreeCount(" AND ");
      CountJoinOnePerPart(texts, " AND ", '?');
      MarkFreeCount("WHERE ");
      CountAppend("WHERE ", Join(texts, " AND "), '?');
    }
  }

  /** Four texts none of which holds a placeholder hold none together. */
  lemma MarkFreeJoin4(a: string, b: string, c: string, d: string)
    requires MarkFree(a) && MarkFree(b) && MarkFree(c) && MarkFree(d)
    ensures Count(a + b + c + d, '?') == 0
  {
    assert MarkFree(a + b + c + d) by {
      forall i | 0 <= i < |a + b + c + d| ensures (a + b + c + d)[i] != '?' {
        if i < |a + b + c| {
          assert (a + b + c + d)[i] == (a + b + c)[i];
          if i < |a + b| {
            assert (a + b + c)[i] == (a + b)[i];
          }
        }
      }
    }
    MarkFreeCount(a + b + c + d);
  }

  lemma SearchHeadMarks()
    ensures Count(SearchHead(), '?') == 0
  {
    MarkFreeJoin4("SELECT id, mobileCode, nameEN, districtEN, ", "locationEN, addressEN, dayOfWeekCode, ",
      "openHour, closeHour, latitude, longitude ", "FROM mobilepost ");
  }

  lemma SearchTailMarks()
    ensures Count(SearchTail(), '?') == 0
  {
    MarkFreeJoin4(" ORDER BY dayOfWeekCode, ", "mobileCode, seq", " LIMIT ", "500");
  }

  lemma {:induction false} MarkListMarks(n: nat)
    ensures Count(MarkList(n), '?') == n
  {
    if n > 1 {
      MarkListMarks(n - 1);
      CountAppend("?,", MarkList(n - 1), '?');
    }
  }

  lemma ByIdSqlMarks()
    ensures Count(ByIdSql(), '?') == 1
  {
    ClauseTextMarks(Clause("id", Eq));
    MarkFreeCount(" WHERE ");
    CountAppend(" WHERE ", ClauseText(Clause("id", Eq)), '?');
  }

  lemma InsertHeadMarks()
    ensures Count(InsertHead(), '?') == 0
  {
    MarkFreeJoin4("INSERT INTO mobilepost (mobileCode, ", "dayOfWeekCode, seq, nameEN, districtEN, ",
      "locationEN, addressEN, openHour, closeHour)", " VALUES (");
  }

  lemma InsertSqlMarks()
    ensures Count(InsertSql(), '?') == |InsertColumns|
  {
    InsertHeadMarks();
    MarkListMarks(|InsertColumns|);
    MarkFreeCount(")");
    CountConcat3(InsertHead(), MarkList(|InsertColumns|), ")");
  }

  lemma UpdateSqlMarks(sets: seq<string>)
    requires forall i | 0 <= i < |sets| :: PlainName(sets[i])
    ensures Count(UpdateSql(sets), '?') == |sets| + 1
  {
    var texts := SetTexts(sets);
    forall i | 0 <= i < |texts| ensures Count(texts[i], '?') == 1 {
      PlainNameHasNoMark(sets[i]);
      CountAppend(sets[i], " = ?", '?');
    }
    MarkFreeCount(", ");
    CountJoinOnePerPart(texts, ", ", '?');
    MarkFreeCount("UPDATE mobilepost SET ");
    ByIdSqlMarks();
    CountConcat3("UPDATE mobilepost SET ", Join(texts, ", "), ByIdSql());
  }

  lemma SearchSqlMarks(wh: seq<Clause>)
    requires forall i | 0 <= i < |wh| :: PlainName(wh[i].column)
    ensures Count(SearchHead() + WhereSql(wh) + SearchTail(), '?') == |wh|
  {
    SearchHeadMarks();
    WhereSqlMarks(wh);
    SearchTailMarks();
    CountConcat3(SearchHead(), WhereSql(wh), SearchTail());
  }

  /** A fixed statement text followed by `WHERE id = ?` holds one placeholder. */
  lemma ByIdStatementMarks(head: string)
    requires MarkFree(head)
    ensures Count(head + ByIdSql(), '?') == 1
  {
    ByIdSqlMarks();
    MarkFreeCount(head);
    CountAppend(head, ByIdSql(), '?');
  }

  /**
   * Every well-formed statement has exactly as many `?` placeholders in its
   * SQL text as it has bound values.
   */
  lemma PlaceholdersMatch(st: Statement)
    requires WellFormed(st)
    ensures Count(StatementText(st), '?') == |Bound(st)|
  {
    match st
    case SelectRows(wh, _) => SearchSqlMarks(wh);
    case SelectOne(_) => ByIdStatementMarks("SELECT * FROM mobilepost");
    case InsertOne(_) => InsertSqlMarks();
    case UpdateOne(sets, values, _) => UpdateSqlMarks(sets);
    case DeleteOne(_) => ByIdStatementMarks("DELETE FROM mobilepost");
  }
}
