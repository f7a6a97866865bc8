/**
 * The vocabulary shared by both copies of the mobile-post REST API: the
 * columns of the `mobilepost` table, the SQL statements the handlers send
 * (with their `?` placeholders and bound values), a row model good enough to
 * say which rows a WHERE clause selects, the store's replies, the responses,
 * an abstract table keyed by id, and Express-style route dispatch.
 */
module Api {
  import opened Common
  import opened Js

  /** A column name: letters only, so it never contains a placeholder. */
  predicate PlainName(s: string)
  {
    forall i | 0 <= i < |s| :: 'a' <= s[i] <= 'z' || 'A' <= s[i] <= 'Z'
  }

  /** The fields PUT /mobilepost/:id may change; id, mobileCode, dayOfWeekCode and seq are not among them. */
  const UpdatableFields: set<string> := {
    "locationTC", "locationSC", "addressTC", "nameSC", "districtSC", "addressSC",
    "closeHour", "nameTC", "districtTC", "latitude", "openHour",
    "nameEN", "districtEN", "locationEN", "addressEN", "longitude"
  }

  /** The two fields that hold a time of day. */
  predicate IsTimeField(k: string) { k == "openHour" || k == "closeHour" }

  lemma UpdatableFieldsArePlain()
    ensures forall k | k in UpdatableFields :: PlainName(k)
  {
  }

  /** The columns POST /mobilepost inserts, in the order of its placeholders. */
  const InsertColumns: seq<string> := [
    "mobileCode", "dayOfWeekCode", "seq",
    "nameEN", "districtEN", "locationEN", "addressEN", "openHour", "closeHour"
  ]

  /**
   * The normalised time of day "HH:MM": two digits, a colon, two digits,
   * hours at most 23 and minutes at most 59.
   */
  predicate IsClock(s: string)
  {
    && |s| == 5 && s[2] == ':' && AllDigits(s[..2]) && AllDigits(s[3..])
    && DecimalValue(s[..2]) <= 23 && DecimalValue(s[3..]) <= 59
  }

  /** The seconds since midnight a normalised time of day stands for, as MySQL reads it into a TIME. */
  function ClockSeconds(s: string): Option<int>
  {
    if IsClock(s) then Some(DecimalValue(s[..2]) * 3600 + DecimalValue(s[3..]) * 60) else None
  }

  // ---------------------------------------------------------------------
  // Bound values, WHERE clauses and the rows they select

  /**
   * A value bound to a placeholder: null, a JSON boolean, number (by its
   * rendering) or string passed through, or the result of Number(...):
   * an integer, or a number that is not one (NaN or a fraction).
   */
  datatype Param = PNull | PBool(b: bool) | PNum(text: string) | PStr(s: string) | PInt(i: int) | PNonInteger

  /** `v ?? null`, as the driver receives it. */
  function Bind(v: JsValue): Param
  {
    match v
    case Undefined => PNull
    case Null => PNull
    case Bool(b) => PBool(b)
    case Num(text) => PNum(text)
    case Str(s) => PStr(s)
  }

  /** Number(v), as the driver receives it. */
  function BindNumber(n: Numeric): Param
  {
    match n
    case Integer(i) => PInt(i)
    case NonInteger => PNonInteger
  }

  datatype Cmp = Eq | AtMost | Above

  /** `column = ?`, `column <= ?` or `column > ?`. */
  datatype Clause = Clause(column: string, cmp: Cmp)

  function CmpText(c: Cmp): string
  {
    match c
    case Eq => "="
    case AtMost => "<="
    case Above => ">"
  }

  function ClauseText(c: Clause): string
  {
    c.column + " " + CmpText(c.cmp) + " ?"
  }

  /** A stored cell: NULL, text, an integer, a TIME (in seconds), or a value this model does not interpret. */
  datatype Cell = CNull | CText(s: string) | CInt(i: int) | CTime(seconds: int) | COther

  type Row = map<string, Cell>

  function CellAt(row: Row, column: string): Cell
  {
    if column in row then row[column] else CNull
  }

  /**
   * Whether a row satisfies one clause with its bound value. A NULL cell,
   * or a cell and a value of kinds the clause does not compare, satisfies
   * nothing.
   */
  predicate Satisfies(row: Row, c: Clause, p: Param)
  {
    match (c.cmp, CellAt(row, c.column), p)
    case (Eq, CText(a), PStr(b)) => a == b
    case (Eq, CInt(a), PInt(b)) => a == b
    case (AtMost, CTime(a), PStr(b)) => ClockSeconds(b).Some? && a <= ClockSeconds(b).value
    case (Above, CTime(a), PStr(b)) => ClockSeconds(b).Some? && a > ClockSeconds(b).value
    case _ => false
  }

  /** The clauses, joined by AND, select the row. */
  predicate Selects(row: Row, wh: seq<Clause>, params: seq<Param>)
    requires |wh| == |params|
  {
    forall i | 0 <= i < |wh| :: Satisfies(row, wh[i], params[i])
  }

  lemma SelectsExtend(wh: seq<Clause>, params: seq<Param>, c: Clause, p: Param)
    requires |wh| == |params|
    ensures forall row :: Selects(row, wh + [c], params + [p]) <==> Selects(row, wh, params) && Satisfies(row, c, p)
  {
    forall row
      ensures Selects(row, wh + [c], params + [p]) <==> Selects(row, wh, params) && Satisfies(row, c, p)
    {
      if Selects(row, wh, params) && Satisfies(row, c, p) {
        forall i | 0 <= i < |wh| + 1
          ensures Satisfies(row, (wh + [c])[i], (params + [p])[i])
        {
          if i < |wh| {
            assert (wh + [c])[i] == wh[i] && (params + [p])[i] == params[i];
          }
        }
      }
      if Selects(row, wh + [c], params + [p]) {
        forall i | 0 <= i < |wh|
          ensures Satisfies(row, wh[i], params[i])
        {
          assert (wh + [c])[i] == wh[i] && (params + [p])[i] == params[i];
        }
        assert (wh + [c])[|wh|] == c && (params + [p])[|wh|] == p;
      }
    }
  }
}
