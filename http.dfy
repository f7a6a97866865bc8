/**
 * What the handlers exchange with the store and the client: the store's
 * replies, the responses, an abstract table keyed by id, and Express-style
 * route dispatch.
 */
module Http {
  import opened Common
  import opened Api
  import opened Sql

  /** What the driver gives back for a statement: a value, or an error it raised. */
  datatype Reply<T> = Answered(value: T) | Raised(message: string)

  /** A plain-text message, one row, an array of rows, or a `{message, id}` acknowledgement. */
  datatype Body = Text(message: string) | RowJson(row: Row) | RowsJson(rows: seq<Row>) | Ack(message: string, id: int)

  datatype Response = Response(status: nat, body: Body)

  /** What a handler did: the statements it sent, in order, and the response it gave. */
  datatype Handled = Handled(sent: seq<Statement>, response: Response)

  /** The table as a map from id to row. */
  type Table = map<int, Row>

  /** The rows `SELECT * FROM mobilepost WHERE id = ?` returns. */
  function RowsWithId(t: Table, id: int): seq<Row>
  {
    if id in t then [t[id]] else []
  }

  /** `DELETE FROM mobilepost WHERE id = ?`: the affected row count and the table afterwards. */
  function DeleteRow(t: Table, id: int): (nat, Table)
  {
    if id in t then (1, t - {id}) else (0, t)
  }

  /** The affected row count of `UPDATE ... WHERE id = ?`, counting matched rows. */
  function MatchedRows(t: Table, id: int): nat
  {
    if id in t then 1 else 0
  }

  // ---------------------------------------------------------------------
  // Routing

  datatype Verb = Get | Post | Put | Delete

  /** A path segment of a route: a fixed word, or a `:param` that takes any non-empty segment. */
  datatype Segment = Literal(text: string) | Parameter

  datatype Endpoint = Welcome | Search | GetOne | Create | Update | Remove

  datatype Route = Route(verb: Verb, pattern: seq<Segment>, endpoint: Endpoint)

  /** An ASCII capital lowered; every other character kept. */
  function LowerChar(c: char): char
  {
    if 'A' <= c <= 'Z' then (c as int + 32) as char else c
  }

  /** The path segment with its ASCII capitals lowered. */
  function LowerAscii(s: string): (r: string)
    ensures |r| == |s| && forall i | 0 <= i < |s| :: r[i] == LowerChar(s[i])
  {
    seq(|s|, i requires 0 <= i < |s| => LowerChar(s[i]))
  }

  /**
   * Express's default router is case-insensitive: a fixed word (written in
   * lower case in every route here) matches a segment that equals it once
   * ASCII capitals are lowered. Non-ASCII characters never fold onto ASCII
   * ones, so they match only themselves.
   */
  predicate SegmentMatches(seg: Segment, part: string)
  {
    match seg
    case Literal(text) => LowerAscii(part) == text
    case Parameter => part != ""
  }

  predicate RouteMatches(r: Route, verb: Verb, path: seq<string>)
  {
    r.verb == verb && |r.pattern| == |path|
    && forall i | 0 <= i < |path| :: SegmentMatches(r.pattern[i], path[i])
  }

  /** The index of the first registered route that matches, as Express picks it. */
  function FirstMatch(routes: seq<Route>, verb: Verb, path: seq<string>): (r: Option<nat>)
    ensures r.Some? ==> r.value < |routes| && RouteMatches(routes[r.value], verb, path)
    ensures r.Some? ==> forall j | 0 <= j < r.value :: !RouteMatches(routes[j], verb, path)
    ensures r.None? ==> forall j | 0 <= j < |routes| :: !RouteMatches(routes[j], verb, path)
  {
    if routes == [] then None
    else if RouteMatches(routes[0], verb, path) then Some(0)
    else
      match FirstMatch(routes[1..], verb, path)
      case None => None
      case Some(k) => Some(k + 1)
  }

  function Dispatch(routes: seq<Route>, verb: Verb, path: seq<string>): Option<Endpoint>
  {
    match FirstMatch(routes, verb, path)
    case None => None
    case Some(i) => Some(routes[i].endpoint)
  }
}
