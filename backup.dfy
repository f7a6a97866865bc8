/**
 * The older copy of the mobile-post API (backup.mjs). Its GET by id, POST
 * and DELETE handlers are those of server.mjs, modelled in module Server.
 * What differs is modelled here: the order in which the routes are
 * registered, the search handler that refuses a bad openAt instead of
 * ignoring it, and the PUT handler, which calls a normHHMM this file never
 * defines.
 */
module Backup {
  import opened Common
  import opened Js
  import opened Api
  import opened Sql
  import opened Http
  import opened Server

  // ---------------------------------------------------------------------
  // Routes

  /** The routes in the order they are registered: `/mobilepost/:id` before `/mobilepost/search`, and no GET `/mobilepost`. */
  const BackupRoutes: seq<Route> := [
    Route(Get, [], Welcome),
    Route(Get, [Literal("mobilepost"), Parameter], GetOne),
    Route(Get, [Literal("mobilepost"), Literal("search")], Search),
    Route(Post, [Literal("mobilepost")], Create),
    Route(Put, [Literal("mobilepost"), Parameter], Update),
    Route(Delete, [Literal("mobilepost"), Parameter], Remove)
  ]

  /**
   * The search route is shadowed: every GET path it matches is matched
   * first by `/mobilepost/:id`, so no request ever reaches the search.
   */
  lemma BackupSearchUnreachable(path: seq<string>)
    ensures Dispatch(BackupRoutes, Get, path) != Some(Search)
  {
    if RouteMatches(BackupRoutes[2], Get, path) {
      assert RouteMatches(BackupRoutes[1], Get, path) by {
        assert SegmentMatches(Parameter, path[1]);
      }
    }
    match FirstMatch(BackupRoutes, Get, path)
    case None =>
    case Some(i) =>
      assert i != 2;
  }

  /**
   * A search request, in any mix of letter case, goes to GET by id instead,
   * which refuses it as an id before touching the store; `/mobilepost` has
   * no GET route at all.
   */
  lemma BackupSearchRequest(m: string, p: string, reply: Reply<seq<Row>>)
    requires LowerAscii(m) == "mobilepost" && LowerAscii(p) == "search"
    ensures Dispatch(BackupRoutes, Get, [m, p]) == Some(GetOne)
    ensures HandleGetOne(p, reply) == InvalidId
    ensures Dispatch(BackupRoutes, Get, [m]) == None
  {
    SearchTakenAsId(m, p);
    NoListRoute(m);
    SearchIsNoId(p);
  }

  lemma SearchTakenAsId(m: string, p: string)
    requires LowerAscii(m) == "mobilepost" && LowerAscii(p) == "search"
    ensures Dispatch(BackupRoutes, Get, [m, p]) == Some(GetOne)
  {
    assert !RouteMatches(BackupRoutes[0], Get, [m, p]);
    assert RouteMatches(BackupRoutes[1], Get, [m, p]);
  }

  lemma NoListRoute(m: string)
    ensures Dispatch(BackupRoutes, Get, [m]) == None
  {
    forall j | 0 <= j < |BackupRoutes|
      ensures !RouteMatches(BackupRoutes[j], Get, [m])
    {
      assert BackupRoutes[j].verb != Get || |BackupRoutes[j].pattern| != 1;
    }
  }

  lemma SearchIsNoId(p: string)
    requires LowerAscii(p) == "search"
    ensures ParseId(p) == None
  {
    assert LowerChar(p[0]) == 's';
    ParseIdRejectsWords(p, 0);
  }

  // ---------------------------------------------------------------------
  // The strict openAt check of the search

  /**
   * Why the search refuses its openAt parameter, if it does: a truthy
   * openAt whose prepared text does not have the clock pattern, or whose
   * hour or minute is out of range.
   */
  function OpenAtRefusal(openAt: Option<string>): Option<string>
  {
    if !Given(openAt) then None else ClockRefusal(PreparedTime(Str(openAt.value)))
  }

  /** The refusal of one prepared openAt text: bad shape first, then bad range. */
  function ClockRefusal(s: string): Option<string>
  {
    if !ClockPattern(s) then Some("openAt must be HH:MM")
    else if DecimalValue(s[..|s| - 3]) > 23 || DecimalValue(s[|s| - 2..]) > 59 then Some("openAt must be valid HH:MM")
    else None
  }

  /**
   * The strict check refuses exactly the truthy openAt values that
   * normHHMM rejects, which server.mjs drops silently; any other value
   * gives the same normalised time in both copies.
   */
  lemma OpenAtRefusalIsNormHHMM(openAt: Option<string>)
    ensures OpenAtRefusal(openAt).Some? <==> Given(openAt) && NormHHMM(Str(openAt.value)).None?
  {
  }

  /** One-digit minutes fail the pattern: "9:5" is refused as malformed. */
  lemma OpenAtMalformed()
    ensures OpenAtRefusal(Some("9:5")) == Some("openAt must be HH:MM")
  {
    assert '.' !in "9:5";
    TrimNoSpace("9:5", IsJsSpace);
    assert PreparedTime(Str("9:5")) == "9:5";
  }

  /** A well-shaped time out of range is refused as invalid: "24:00" is one. */
  lemma OpenAtOutOfRange(hs: string, ms: string)
    requires 1 <= |hs| <= 2 && |ms| == 2 && AllDigits(hs) && AllDigits(ms)
    requires DecimalValue(hs) > 23 || DecimalValue(ms) > 59
    ensures OpenAtRefusal(Some(hs + ":" + ms)) == Some("openAt must be valid HH:MM")
  {
    PrepareClockText(hs, ':', ms);
    ClockTextPattern(hs, ms);
  }

  lemma OpenAtHour24(s: string)
    requires s == "24:00"
    ensures OpenAtRefusal(Some(s)) == Some("openAt must be valid HH:MM")
  {
    var hs, ms := s[..2], s[3..];
    assert s == hs + ":" + ms;
    TwoDigitValue(hs);
    OpenAtOutOfRange(hs, ms);
  }

  /**
   * The openAt block: a truthy openAt must have the clock pattern and an
   * hour and minute in range, else the search is refused; otherwise both
   * hour clauses are pushed with the padded time.
   */
  method PushStrictOpenAt(wh: seq<Clause>, params: seq<Param>, q: SearchQuery)
    returns (refusal: Option<string>, wh': seq<Clause>, params': seq<Param>)
    ensures refusal == OpenAtRefusal(q.openAt)
    ensures refusal.None? ==> wh' == wh + Opt(OpenAtTime(q).Some?, ClauseOf(ByOpening)) + Opt(OpenAtTime(q).Some?, ClauseOf(ByClosing))
    ensures refusal.None? ==> params' == params + Opt(OpenAtTime(q).Some?, TextParam(OpenAtTime(q))) + Opt(OpenAtTime(q).Some?, TextParam(OpenAtTime(q)))
  {
    wh', params' := wh, params;
    var hhmm;
    refusal, hhmm := CheckOpenAt(q.openAt);
    if refusal.None? && hhmm.Some? {
      wh', params' := wh' + [ClauseOf(ByOpening)], params' + [PStr(hhmm.value)];
      wh', params' := wh' + [ClauseOf(ByClosing)], params' + [PStr(hhmm.value)];
    }
  }

  /**
   * The strict check of openAt: a truthy value must have the clock pattern
   * and an hour and minute in range, else it is refused with the reason;
   * an accepted value gives the padded time.
   */
  method CheckOpenAt(openAt: Option<string>) returns (refusal: Option<string>, hhmm: Option<string>)
    ensures refusal == OpenAtRefusal(openAt)
    ensures refusal.None? ==> hhmm == (if Given(openAt) then NormHHMM(Str(openAt.value)) else None)
  {
    refusal, hhmm := None, None;
    if Given(openAt) {
      var v := Str(openAt.value);
      refusal, hhmm := CheckClock(PreparedTime(v));
      if refusal.None? {
        NormHHMMOfPattern(v);
      }
    }
  }

  /** The pattern check, then the range check, of one prepared openAt text. */
  method CheckClock(s: string) returns (refusal: Option<string>, hhmm: Option<string>)
    ensures refusal == ClockRefusal(s)
    ensures refusal.None? ==> ClockPattern(s)
    ensures refusal.None? ==> hhmm == Some(ClockText(DecimalValue(s[..|s| - 3]), DecimalValue(s[|s| - 2..])))
  {
    refusal, hhmm := None, None;
    if !ClockPattern(s) {
      refusal := Some("openAt must be HH:MM");
      return;
    }
    var h, m := DecimalValue(s[..|s| - 3]), DecimalValue(s[|s| - 2..]);
    if h > 23 || m > 59 {
      refusal := Some("openAt must be valid HH:MM");
      return;
    }
    hhmm := Some(ClockText(h, m));
  }

  /**
   * The search's WHERE builder: a dayOfWeekCode that is not an integer
   * 1..7, or an openAt the strict check refuses, stops it with the reason;
   * otherwise it builds exactly the clauses and values of server.mjs.
   */
  method BuildStrictSearch(q: SearchQuery) returns (refusal: Option<string>, wh: seq<Clause>, params: seq<Param>)
    ensures refusal == if DayOf(q.dayOfWeekCode).BadDay? then Some("dayOfWeekCode must be 1..7") else OpenAtRefusal(q.openAt)
    ensures refusal.None? ==> wh == PlannedClauses(FiltersOf(q)) && params == PlannedParams(FiltersOf(q))
  {
    wh, params := PushText([], [], q.districtEN, ByDistrict);
    var refused;
    refused, wh, params := PushDay(wh, params, q.dayOfWeekCode);
    if refused {
      refusal := Some("dayOfWeekCode must be 1..7");
      return;
    }
    wh, params := PushText(wh, params, q.mobileCode, ByMobile);
    refusal, wh, params := PushStrictOpenAt(wh, params, q);
    assert [] + Opt(Given(q.districtEN), ClauseOf(ByDistrict)) == Opt(Given(q.districtEN), ClauseOf(ByDistrict));
    assert [] + Opt(Given(q.districtEN), TextParam(TextFilter(q.districtEN)))
        == Opt(Given(q.districtEN), TextParam(TextFilter(q.districtEN)));
  }

  /**
   * The search handler: a refusal is a 400 with its reason before any
   * query; otherwise the SELECT of server.mjs is sent.
   */
  method HandleStrictSearch(q: SearchQuery, reply: Reply<seq<Row>>) returns (h: Handled)
    ensures DayOf(q.dayOfWeekCode).BadDay? ==> h == Handled([], Response(400, Text("dayOfWeekCode must be 1..7")))
    ensures !DayOf(q.dayOfWeekCode).BadDay? && OpenAtRefusal(q.openAt).Some? ==>
      h == Handled([], Response(400, Text(OpenAtRefusal(q.openAt).value)))
    ensures !DayOf(q.dayOfWeekCode).BadDay? && OpenAtRefusal(q.openAt).None? ==>
      h.sent == [SelectRows(PlannedClauses(FiltersOf(q)), PlannedParams(FiltersOf(q)))]
    ensures !DayOf(q.dayOfWeekCode).BadDay? && OpenAtRefusal(q.openAt).None? && reply.Answered? ==>
      h.response == Response(200, RowsJson(reply.value))
    ensures !DayOf(q.dayOfWeekCode).BadDay? && OpenAtRefusal(q.openAt).None? && reply.Raised? ==>
      h.response == Response(500, Text("Database error"))
  {
    var refusal, wh, params := BuildStrictSearch(q);
    if refusal.Some? {
      return Handled([], Response(400, Text(refusal.value)));
    }
    var response := match reply
      case Answered(rows) => Response(200, RowsJson(rows))
      case Raised(_) => Response(500, Text("Database error"));
    h := Handled([SelectRows(wh, params)], response);
  }

  // ---------------------------------------------------------------------
  // PUT /mobilepost/:id, as written

  /**
   * What a handler that may throw did: it finished with a response, or an
   * exception escaped it after it had sent the given statements.
   */
  datatype Outcome = Finished(h: Handled) | Threw(sent: seq<Statement>, error: string)

  /** An allowed time field with a value that is not null: the one place the loop calls normHHMM. */
  predicate CallsNormHHMM(e: (string, JsValue))
  {
    IsTimeField(e.0) && !IsNullish(e.1)
  }

  /** The index of the first entry for which the loop calls normHHMM, if any. */
  function FirstCall(body: Entries): (r: Option<nat>)
    ensures r.Some? ==> r.value < |body| && CallsNormHHMM(body[r.value])
    ensures r.Some? ==> forall j | 0 <= j < r.value :: !CallsNormHHMM(body[j])
    ensures r.None? ==> forall j | 0 <= j < |body| :: !CallsNormHHMM(body[j])
  {
    if body == [] then None
    else if CallsNormHHMM(body[0]) then Some(0)
    else
      match FirstCall(body[1..])
      case None => None
      case Some(k) =>
        assert body[1..][k] == body[k + 1];
        Some(k + 1)
  }

  /** Without a call to normHHMM no entry is refused, and every time the update binds is null. */
  lemma NoCallNoRefusal(body: Entries)
    requires FirstCall(body).None?
    ensures FirstBadTime(body).None?
    ensures forall i | 0 <= i < |Kept(body)| && IsTimeField(Kept(body)[i].0) :: ValuesOf(Kept(body))[i] == PNull
  {
    KeptMembers(body);
    forall i | 0 <= i < |Kept(body)| && IsTimeField(Kept(body)[i].0)
      ensures IsNullish(Kept(body)[i].1)
    {
      assert Kept(body)[i] in Kept(body);
      var m :| 0 <= m < |body| && body[m] == Kept(body)[i];
    }
  }

  /**
   * The loop of this copy: entries off the allow-list are skipped, a null
   * time is bound as null, and the first time that is not null reaches the
   * undefined normHHMM, which throws; every other entry adds `k = ?` and
   * its value.
   */
  method BuildUpdateAsWritten(body: Entries) returns (threw: bool, sets: seq<string>, values: seq<Param>)
    ensures threw <==> FirstCall(body).Some?
    ensures !threw ==> sets == KeysOf(Kept(body)) && values == ValuesOf(Kept(body))
  {
    threw, sets, values := false, [], [];
    var i := 0;
    while i < |body|
      invariant 0 <= i <= |body|
      invariant forall j | 0 <= j < i :: !CallsNormHHMM(body[j])
      invariant sets == KeysOf(Kept(body[..i])) && values == ValuesOf(Kept(body[..i]))
    {
      var (k, v) := body[i];
      assert body[i] == (k, v);
      KeptNext(body, i);
      TimeFieldsUpdatable();
      if k in UpdatableFields {
        if k == "openHour" || k == "closeHour" {
          if !IsNullish(v) {
            threw := true;
            return;
          }
          sets, values := sets + [k], values + [PNull];
        } else {
          sets, values := sets + [k], values + [Bind(v)];
        }
      }
      i := i + 1;
    }
    assert body[..i] == body;
  }

  /**
   * PUT /mobilepost/:id as written: an invalid id is a 400; a body that
   * sets openHour or closeHour to anything but null throws (normHHMM is not
   * defined) before any query; otherwise it behaves as in server.mjs.
   */
  method HandleUpdateAsWritten(param: string, body: Entries, reply: Reply<nat>) returns (out: Outcome)
    ensures ParseId(param).None? ==> out == Finished(InvalidId)
    ensures ParseId(param).Some? && FirstCall(body).Some? ==> out.Threw? && out.sent == []
    ensures ParseId(param).Some? && FirstCall(body).None? && Kept(body) == [] ==>
      out == Finished(Handled([], Response(400, Text("No valid fields to update"))))
    ensures ParseId(param).Some? && FirstCall(body).None? && Kept(body) != [] ==>
      out == Finished(Handled([UpdateOne(KeysOf(Kept(body)), ValuesOf(Kept(body)), ParseId(param).value)],
                              UpdateResponse(ParseId(param).value, reply)))
  {
    var id := ParseId(param);
    if id.None? {
      return Finished(InvalidId);
    }
    var threw, sets, values := BuildUpdateAsWritten(body);
    if threw {
      return Threw([], "ReferenceError: normHHMM is not defined");
    }
    if |sets| == 0 {
      return Finished(Handled([], Response(400, Text("No valid fields to update"))));
    }
    out := Finished(Handled([UpdateOne(sets, values, id.value)], UpdateResponse(id.value, reply)));
  }

  /**
   * The discrepancy: a body setting openHour to a valid time such as
   * "09:30" makes this copy throw, while server.mjs, whose normHHMM exists,
   * accepts it and binds the time.
   */
  lemma ValidTimeThrows(t: string)
    requires IsClock(t)
    ensures var body := [("openHour", Str(t))];
      && FirstCall(body) == Some(0)
      && FirstBadTime(body).None?
      && Kept(body) == body
      && ValuesOf(Kept(body)) == [PStr(t)]
  {
    var body := [("openHour", Str(t))];
    assert CallsNormHHMM(body[0]);
    ValidTimeAccepted(t);
    ValidTimeKept(t);
  }

  /** server.mjs refuses no entry of that body, and binds the time as given. */
  lemma ValidTimeAccepted(t: string)
    requires IsClock(t)
    ensures var body := [("openHour", Str(t))];
      FirstBadTime(body).None? && UpdateValue("openHour", Str(t)) == PStr(t)
  {
    NormHHMMFixesClocks(t);
  }

  /** The entry is kept, and its value is the normalised time. */
  lemma ValidTimeKept(t: string)
    requires IsClock(t)
    ensures var body := [("openHour", Str(t))];
      Kept(body) == body && ValuesOf(Kept(body)) == [PStr(t)]
  {
    var body := [("openHour", Str(t))];
    ValidTimeAccepted(t);
    assert body[..0] == [];
    TimeFieldsUpdatable();
    assert Kept(body) == body;
  }
}
