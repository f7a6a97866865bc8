/**
 * The request handlers of the mobile-post API (server.mjs): the time-of-day
 * normaliser, the search query builder, the id checks, the create, update
 * and delete handlers and the order in which the routes are registered.
 *
 * A handler is modelled as a function or method from the request (and the
 * store's reply to the statement it sends) to what it did: the statements
 * it sent and the response it gave.
 */
module Server {
  import opened Common
  import opened Js
  import opened Api
  import opened Sql
  import opened Http

  // ---------------------------------------------------------------------
  // normHHMM

  /** The regular expression `^\d{1,2}:\d{2}$`: one or two digits, a colon, two digits. */
  predicate ClockPattern(s: string)
  {
    (|s| == 4 || |s| == 5) && s[|s| - 3] == ':' && AllDigits(s[..|s| - 3]) && AllDigits(s[|s| - 2..])
  }

  /** String(v) with its first '.' replaced by ':', then trimmed. */
  function PreparedTime(v: JsValue): string
  {
    JsTrim(ReplaceFirst(ToJsString(v), '.', ':'))
  }

  lemma DigitsHaveNoColon(s: string)
    requires AllDigits(s)
    ensures ':' !in s && '.' !in s
  {
  }

  /** A string of the clock pattern splits on ':' into its hour and minute digits. */
  lemma ClockSplit(s: string)
    requires ClockPattern(s)
    ensures Split(s, ':') == [s[..|s| - 3], s[|s| - 2..]]
  {
    DigitsHaveNoColon(s[..|s| - 3]);
    DigitsHaveNoColon(s[|s| - 2..]);
    SplitAtSole(s, ':', |s| - 3);
  }

  /**
   * normHHMM(v): null for null and undefined; otherwise the prepared string
   * must match the clock pattern, and its hour and minute must be in range,
   * and the result is both numbers padded to two digits. The NaN and
   * negative checks of the original are not written out: ClockPartsAreNumbers
   * shows that once the pattern holds, `split(':').map(Number)` gives the
   * two digit runs' decimal values, which are never NaN and never negative.
   */
  function NormHHMM(v: JsValue): (r: Option<string>)
    ensures IsNullish(v) ==> r.None?
    ensures r.Some? ==> ClockPattern(PreparedTime(v)) && IsClock(r.value)
  {
    if IsNullish(v) then None else NormClock(PreparedTime(v))
  }

  /**
   * The numbers normHHMM reads from a string of the clock pattern:
   * `split(':')` gives exactly two parts, and Number() of each is the
   * integer its digits spell, so neither is NaN nor negative and only the
   * range tests can refuse.
   */
  lemma ClockPartsAreNumbers(s: string)
    requires ClockPattern(s)
    ensures var parts := Split(s, ':');
      && |parts| == 2
      && StringToNumber(parts[0]) == Integer(DecimalValue(s[..|s| - 3]))
      && StringToNumber(parts[1]) == Integer(DecimalValue(s[|s| - 2..]))
  {
    ClockSplit(s);
    StringToNumberDigits(s[..|s| - 3]);
    StringToNumberDigits(s[|s| - 2..]);
  }

  /**
   * The part of normHHMM that looks only at the prepared string s: the
   * hour and minute are the decimal values of the digit runs, as
   * ClockPartsAreNumbers justifies.
   */
  function NormClock(s: string): (r: Option<string>)
    ensures r.Some? ==> ClockPattern(s) && IsClock(r.value)
  {
    if !ClockPattern(s) then None
    else
      var h, m := DecimalValue(s[..|s| - 3]), DecimalValue(s[|s| - 2..]);
      if h > 23 || m > 59 then None else Some(ClockText(h, m))
  }

  /** `${pad(h)}:${pad(m)}`: the normalised time of hour h and minute m. */
  function ClockText(h: nat, m: nat): (r: string)
    requires h <= 23 && m <= 59
    ensures IsClock(r) && ClockSeconds(r) == Some(h * 3600 + m * 60)
  {
    var r := Pad2(h) + ":" + Pad2(m);
    assert r[..2] == Pad2(h) && r[3..] == Pad2(m);
    r
  }

  /**
   * One or two hour digits, ':' or '.', two minute digits: accepted exactly
   * when the hour is at most 23 and the minute at most 59, and then
   * zero-padded.
   */
  lemma NormHHMMOnClockText(hs: string, sep: char, ms: string)
    requires 1 <= |hs| <= 2 && |ms| == 2 && AllDigits(hs) && AllDigits(ms) && (sep == ':' || sep == '.')
    ensures NormHHMM(Str(hs + [sep] + ms))
         == if DecimalValue(hs) <= 23 && DecimalValue(ms) <= 59
            then Some(ClockText(DecimalValue(hs), DecimalValue(ms))) else None
  {
    PrepareClockText(hs, sep, ms);
    NormClockOfParts(hs, ms);
  }

  /** The prepared string hour digits, ':', minute digits is decided by the two ranges. */
  lemma NormClockOfParts(hs: string, ms: string)
    requires 1 <= |hs| <= 2 && |ms| == 2 && AllDigits(hs) && AllDigits(ms)
    ensures NormClock(hs + [':'] + ms) == if DecimalValue(hs) <= 23 && DecimalValue(ms) <= 59
      then Some(ClockText(DecimalValue(hs), DecimalValue(ms))) else None
  {
    ClockTextPattern(hs, ms);
  }

  /** What normHHMM gives for a value whose prepared string has the clock pattern. */
  lemma NormHHMMOfPattern(v: JsValue)
    requires !IsNullish(v) && ClockPattern(PreparedTime(v))
    ensures var s := PreparedTime(v);
      var h, m := DecimalValue(s[..|s| - 3]), DecimalValue(s[|s| - 2..]);
      NormHHMM(v) == if h <= 23 && m <= 59 then Some(ClockText(h, m)) else None
  {
  }

  /** Preparing such a text turns its separator into ':' and trims nothing. */
  lemma PrepareClockText(hs: string, sep: char, ms: string)
    requires AllDigits(hs) && AllDigits(ms) && (sep == ':' || sep == '.')
    ensures PreparedTime(Str(hs + [sep] + ms)) == hs + [':'] + ms
  {
    var raw := hs + [sep] + ms;
    var s := hs + [':'] + ms;
    DigitsHaveNoColon(hs);
    DigitsHaveNoColon(ms);
    if sep == '.' {
      assert raw[..|hs|] == hs;
      assert IndexOf(raw, '.') == Some(|hs|);
      assert raw[..|hs|] + [':'] + raw[|hs| + 1..] == s;
    } else {
      assert '.' !in raw;
    }
    assert forall i | 0 <= i < |s| :: !IsJsSpace(s[i]) by {
      forall i | 0 <= i < |s| ensures !IsJsSpace(s[i]) {
        if i < |hs| {
          assert IsDigit(hs[i]);
        } else if i > |hs| {
          assert IsDigit(ms[i - |hs| - 1]);
        }
      }
    }
    TrimNoSpace(s, IsJsSpace);
  }

  lemma ClockTextPattern(hs: string, ms: string)
    requires 1 <= |hs| <= 2 && |ms| == 2 && AllDigits(hs) && AllDigits(ms)
    ensures var s := hs + [':'] + ms; ClockPattern(s) && s[..|s| - 3] == hs && s[|s| - 2..] == ms
  {
    var s := hs + [':'] + ms;
    assert s[..|s| - 3] == hs && s[|s| - 2..] == ms;
  }

  /** Every normalised time is left as it is. */
  lemma NormHHMMFixesClocks(s: string)
    requires IsClock(s)
    ensures NormHHMM(Str(s)) == Some(s)
  {
    assert s == s[..2] + [':'] + s[3..];
    NormHHMMOnClockText(s[..2], ':', s[3..]);
    Pad2Inverse(s[..2]);
    Pad2Inverse(s[3..]);
  }

  /** Normalising a normalised time changes nothing. */
  lemma NormHHMMIdempotent(v: JsValue)
    requires NormHHMM(v).Some?
    ensures NormHHMM(Str(NormHHMM(v).value)) == NormHHMM(v)
  {
    NormHHMMFixesClocks(NormHHMM(v).value);
  }

  /** Every valid clock string is the padded time of its own hour and minute. */
  lemma ClockTextOfClock(c: string)
    requires IsClock(c)
    ensures ClockText(DecimalValue(c[..2]), DecimalValue(c[3..])) == c
  {
    Pad2Inverse(c[..2]);
    Pad2Inverse(c[3..]);
    assert c == c[..2] + ":" + c[3..];
  }

  /** The padded time reads back as its hour and minute: ClockText is injective. */
  lemma ClockTextReadsBack(h: nat, m: nat)
    requires h <= 23 && m <= 59
    ensures var r := ClockText(h, m);
      |r| == 5 && r[2] == ':' && DecimalValue(r[..2]) == h && DecimalValue(r[3..]) == m
  {
    var r := ClockText(h, m);
    assert r[..2] == Pad2(h) && r[3..] == Pad2(m);
  }

  /** "9.30" becomes "09:30". */
  lemma NormHHMMDotted(s: string)
    requires s == "9.30"
    ensures NormHHMM(Str(s)) == Some("09:30")
  {
    var hs, ms := s[..1], s[2..];
    assert s == hs + ['.'] + ms;
    OneDigitValue(hs);
    TwoDigitValue(ms);
    var c := "09:30";
    TwoDigitValue(c[..2]);
    TwoDigitValue(c[3..]);
    NormHHMMTo(hs, '.', ms, c);
  }

  /** A shaped text whose hour and minute are those of the clock c normalises to c. */
  lemma NormHHMMTo(hs: string, sep: char, ms: string, c: string)
    requires 1 <= |hs| <= 2 && |ms| == 2 && AllDigits(hs) && AllDigits(ms) && (sep == ':' || sep == '.')
    requires IsClock(c) && DecimalValue(c[..2]) == DecimalValue(hs) && DecimalValue(c[3..]) == DecimalValue(ms)
    ensures NormHHMM(Str(hs + [sep] + ms)) == Some(c)
  {
    NormHHMMOnClockText(hs, sep, ms);
    ClockTextOfClock(c);
  }

  /** One-digit minutes are rejected: "9:5" does not match the pattern. */
  lemma NormHHMMOneDigitMinutes()
    ensures NormHHMM(Str("9:5")) == None
  {
    assert '.' !in "9:5";
    TrimNoSpace("9:5", IsJsSpace);
    assert PreparedTime(Str("9:5")) == "9:5";
  }

  /** Hour 24 is out of range: "24:00" is rejected. */
  lemma NormHHMMHour24(s: string)
    requires s == "24:00"
    ensures NormHHMM(Str(s)) == None
  {
    var hs, ms := s[..2], s[3..];
    assert s == hs + [':'] + ms;
    TwoDigitValue(hs);
    NormHHMMOnClockText(hs, ':', ms);
  }

  /** The JSON number 9.30 arrives as 9.3, whose String() "9.3" becomes "9:3" and is rejected. */
  lemma NormHHMMNumber()
    ensures NormHHMM(Num("9.3")) == None
  {
    assert IndexOf("9.3", '.') == Some(1);
    assert ReplaceFirst("9.3", '.', ':') == "9:3";
    TrimNoSpace("9:3", IsJsSpace);
    assert PreparedTime(Num("9.3")) == "9:3";
  }

  // ---------------------------------------------------------------------
  // Id checks

  /** `Number(req.params.id)` must be an integer greater than zero. */
  function ParseId(param: string): (r: Option<int>)
    ensures r.Some? ==> r.value > 0
  {
    match StringToNumber(param)
    case Integer(n) => if n > 0 then Some(n) else None
    case NonInteger => None
  }

  /** Every positive decimal id is accepted as itself. */
  lemma ParseIdAcceptsDecimal(n: nat)
    requires n > 0
    ensures ParseId(DecimalString(n)) == Some(n)
  {
    StringToNumberDecimal(n);
  }

  /** "0" and the empty segment (Number("") is 0) are rejected. */
  lemma ParseIdRejectsZero()
    ensures ParseId(DecimalString(0)) == None
    ensures ParseId("") == None
  {
    StringToNumberDecimal(0);
  }

  /** A segment holding a letter, such as "search", is rejected. */
  lemma ParseIdRejectsWords(param: string, k: nat)
    requires k < |param| && ('a' <= param[k] <= 'z' || 'A' <= param[k] <= 'Z')
    ensures ParseId(param) == None
  {
    StringToNumberRejectsLetters(param, k);
  }

  // ---------------------------------------------------------------------
  // Search

  /** The query-string parameters the search reads; each is absent or a string. */
  datatype SearchQuery = SearchQuery(
    districtEN: Option<string>, dayOfWeekCode: Option<string>, mobileCode: Option<string>, openAt: Option<string>)

  /** What the dayOfWeekCode parameter asks for: nothing, a day 1..7, or something the search refuses. */
  datatype DayFilter = NoDay | Day(code: int) | BadDay

  function DayOf(q: Option<string>): (r: DayFilter)
    ensures r.NoDay? <==> q.None?
    ensures r.Day? ==> 1 <= r.code <= 7
  {
    match q
    case None => NoDay
    case Some(s) =>
      match StringToNumber(s)
      case Integer(d) => if 1 <= d <= 7 then Day(d) else BadDay
      case NonInteger => BadDay
  }

  /** The codes 1 to 7 are accepted; 0, 8 and the empty value (Number("") is 0) are refused. */
  lemma DayOfBoundaries(n: nat)
    ensures DayOf(Some(DecimalString(n))) == if 1 <= n <= 7 then Day(n) else BadDay
    ensures DayOf(Some("")) == BadDay
  {
    StringToNumberDecimal(n);
  }

  /** The time an openAt filter stands for: a truthy openAt that normHHMM accepts. */
  function OpenAtTime(q: SearchQuery): Option<string>
  {
    if Given(q.openAt) then NormHHMM(Str(q.openAt.value)) else None
  }

  /** The filters a search applies once its parameters are read: each absent, or the value to match. */
  datatype Filters = Filters(district: Option<string>, day: Option<int>, mobile: Option<string>, openAt: Option<string>)

  /** A text filter: a truthy (non-empty) parameter, or none. */
  function TextFilter(p: Option<string>): (r: Option<string>)
    ensures r.Some? <==> Given(p)
    ensures r.Some? ==> r == p
  {
    if Given(p) then p else None
  }

  /** The day filter: the code when dayOfWeekCode is an integer 1..7, else none. */
  function DayFilterOf(p: Option<string>): (r: Option<int>)
    ensures r.Some? <==> DayOf(p).Day?
    ensures r.Some? ==> 1 <= r.value <= 7
  {
    if DayOf(p).Day? then Some(DayOf(p).code) else None
  }

  /**
   * The filters of a query: a truthy districtEN or mobileCode, a day 1..7,
   * and the openAt time normHHMM accepts (an openAt it rejects is dropped).
   * A dayOfWeekCode the search refuses gives no day filter here; the search
   * never gets as far as using it.
   */
  function FiltersOf(q: SearchQuery): Filters
  {
    Filters(TextFilter(q.districtEN), DayFilterOf(q.dayOfWeekCode), TextFilter(q.mobileCode), OpenAtTime(q))
  }

  /** A one-element sequence when b holds, else the empty one. */
  function Opt<T>(b: bool, x: T): (r: seq<T>)
    ensures |r| == (if b then 1 else 0) && (b ==> r[0] == x)
  {
    if b then [x] else []
  }

  /** The bound value of a text or time filter that is in force. */
  function TextParam(o: Option<string>): Param { if o.Some? then PStr(o.value) else PNull }

  /** The bound value of the day filter when it is in force. */
  function DayParam(o: Option<int>): Param { if o.Some? then PInt(o.value) else PNull }

  /** The five filters of the search, in the order the handler tests them. */
  datatype Filter = ByDistrict | ByDay | ByMobile | ByOpening | ByClosing

  /** The clause a filter adds: `districtEN = ?`, ..., `openHour <= ?`, `closeHour > ?`. */
  function ClauseOf(k: Filter): (c: Clause)
    ensures PlainName(c.column)
  {
    match k
    case ByDistrict => Clause("districtEN", Eq)
    case ByDay => Clause("dayOfWeekCode", Eq)
    case ByMobile => Clause("mobileCode", Eq)
    case ByOpening => Clause("openHour", AtMost)
    case ByClosing => Clause("closeHour", Above)
  }

  /** The clauses of the search: one for each filter in force, in the handler's order. */
  function PlannedClauses(f: Filters): seq<Clause>
  {
    Opt(f.district.Some?, ClauseOf(ByDistrict)) + Opt(f.day.Some?, ClauseOf(ByDay))
    + Opt(f.mobile.Some?, ClauseOf(ByMobile))
    + Opt(f.openAt.Some?, ClauseOf(ByOpening)) + Opt(f.openAt.Some?, ClauseOf(ByClosing))
  }

  /** The values bound to the clauses of the search, in the same order. */
  function PlannedParams(f: Filters): seq<Param>
  {
    Opt(f.district.Some?, TextParam(f.district)) + Opt(f.day.Some?, DayParam(f.day))
    + Opt(f.mobile.Some?, TextParam(f.mobile))
    + Opt(f.openAt.Some?, TextParam(f.openAt)) + Opt(f.openAt.Some?, TextParam(f.openAt))
  }

  // The handler's WHERE builder, one `if` block of the original per method.

  /** `if (value) { where.push(clause); params.push(value); }` for districtEN and mobileCode. */
  method PushText(wh: seq<Clause>, params: seq<Param>, value: Option<string>, k: Filter)
    returns (wh': seq<Clause>, params': seq<Param>)
    ensures wh' == wh + Opt(Given(value), ClauseOf(k))
    ensures params' == params + Opt(Given(value), TextParam(TextFilter(value)))
  {
    wh', params' := wh, params;
    if Given(value) {
      wh', params' := wh' + [ClauseOf(k)], params' + [PStr(value.value)];
    }
  }

  /**
   * The dayOfWeekCode block: a present code must be Number()-integer in
   * 1..7, else the search is refused; otherwise its clause is pushed.
   */
  method PushDay(wh: seq<Clause>, params: seq<Param>, code: Option<string>)
    returns (refused: bool, wh': seq<Clause>, params': seq<Param>)
    ensures refused <==> DayOf(code).BadDay?
    ensures !refused ==> wh' == wh + Opt(DayFilterOf(code).Some?, ClauseOf(ByDay))
    ensures !refused ==> params' == params + Opt(DayFilterOf(code).Some?, DayParam(DayFilterOf(code)))
  {
    refused, wh', params' := false, wh, params;
    if code.Some? {
      var d := StringToNumber(code.value);
      if !d.Integer? || d.value < 1 || d.value > 7 {
        refused := true;
        return;
      }
      wh', params' := wh' + [ClauseOf(ByDay)], params' + [PInt(d.value)];
    }
  }

  /** The openAt block: a truthy openAt that normHHMM accepts pushes both hour clauses; any other is ignored. */
  method PushOpenAt(wh: seq<Clause>, params: seq<Param>, q: SearchQuery)
    returns (wh': seq<Clause>, params': seq<Param>)
    ensures wh' == wh + Opt(OpenAtTime(q).Some?, ClauseOf(ByOpening)) + Opt(OpenAtTime(q).Some?, ClauseOf(ByClosing))
    ensures params' == params + Opt(OpenAtTime(q).Some?, TextParam(OpenAtTime(q))) + Opt(OpenAtTime(q).Some?, TextParam(OpenAtTime(q)))
  {
    wh', params' := wh, params;
    if Given(q.openAt) {
      var hhmm := NormHHMM(Str(q.openAt.value));
      if hhmm.Some? {
        wh', params' := wh' + [ClauseOf(ByOpening)], params' + [PStr(hhmm.value)];
        wh', params' := wh' + [ClauseOf(ByClosing)], params' + [PStr(hhmm.value)];
      }
    }
  }

  /**
   * The search handler's WHERE builder: pushes a clause and its value for
   * each filter in force, in the order the handler tests them; a
   * dayOfWeekCode that is not an integer 1..7 stops it (the 400 reply).
   */
  method BuildSearch(q: SearchQuery) returns (refused: bool, wh: seq<Clause>, params: seq<Param>)
    ensures refused <==> DayOf(q.dayOfWeekCode).BadDay?
    ensures !refused ==> wh == PlannedClauses(FiltersOf(q)) && params == PlannedParams(FiltersOf(q))
  {
    wh, params := PushText([], [], q.districtEN, ByDistrict);
    refused, wh, params := PushDay(wh, params, q.dayOfWeekCode);
    if refused {
      return;
    }
    wh, params := PushText(wh, params, q.mobileCode, ByMobile);
    wh, params := PushOpenAt(wh, params, q);
    assert [] + Opt(Given(q.districtEN), ClauseOf(ByDistrict)) == Opt(Given(q.districtEN), ClauseOf(ByDistrict));
    assert [] + Opt(Given(q.districtEN), TextParam(TextFilter(q.districtEN)))
        == Opt(Given(q.districtEN), TextParam(TextFilter(q.districtEN)));
  }

  // ---------------------------------------------------------------------
  // The search plan as a selection of filters

  /** The filters of the search, in the order of their clauses. */
  const SearchOrder: seq<Filter> := [ByDistrict, ByDay, ByMobile, ByOpening, ByClosing]

  /** The position of a filter in SearchOrder. */
  function Rank(k: Filter): (r: nat)
    ensures r < |SearchOrder| && SearchOrder[r] == k
  {
    match k
    case ByDistrict => 0
    case ByDay => 1
    case ByMobile => 2
    case ByOpening => 3
    case ByClosing => 4
  }

  /** The filter is in force: its parameter was given (the two hour filters share openAt). */
  predicate InForce(f: Filters, k: Filter)
  {
    match k
    case ByDistrict => f.district.Some?
    case ByDay => f.day.Some?
    case ByMobile => f.mobile.Some?
    case ByOpening | ByClosing => f.openAt.Some?
  }

  /** The value bound to a filter's clause: the text or day it matches, or the openAt time. */
  function ParamOf(f: Filters, k: Filter): Param
  {
    match k
    case ByDistrict => TextParam(f.district)
    case ByDay => DayParam(f.day)
    case ByMobile => TextParam(f.mobile)
    case ByOpening | ByClosing => TextParam(f.openAt)
  }

  /** The filters of ks that are in force, in the order of ks. */
  function InForceAmong(f: Filters, ks: seq<Filter>): seq<Filter>
  {
    if ks == [] then []
    else InForceAmong(f, ks[..|ks| - 1]) + Opt(InForce(f, ks[|ks| - 1]), ks[|ks| - 1])
  }

  /** The filters come in strictly increasing rank. */
  predicate Ordered(ks: seq<Filter>)
  {
    forall i, j | 0 <= i < j < |ks| :: Rank(ks[i]) < Rank(ks[j])
  }

  /** Picking the filters in force keeps exactly those of ks that are in force. */
  lemma {:induction false} InForceAmongMembers(f: Filters, ks: seq<Filter>)
    ensures forall k :: k in InForceAmong(f, ks) <==> k in ks && InForce(f, k)
  {
    if ks != [] {
      var init := ks[..|ks| - 1];
      InForceAmongMembers(f, init);
      assert ks == init + [ks[|ks| - 1]];
    }
  }

  /** Picking the filters in force keeps their order. */
  lemma {:induction false} InForceAmongOrdered(f: Filters, ks: seq<Filter>)
    requires Ordered(ks)
    ensures Ordered(InForceAmong(f, ks))
  {
    if ks != [] {
      var init, last := ks[..|ks| - 1], ks[|ks| - 1];
      InForceAmongOrdered(f, init);
      InForceAmongMembers(f, init);
      var rest := InForceAmong(f, init);
      forall k | k in rest ensures Rank(k) < Rank(last) {
        var m :| 0 <= m < |init| && init[m] == k;
      }
    }
  }

  /** The filters a search applies: those in force, in SearchOrder. */
  function PlannedFilters(f: Filters): seq<Filter>
  {
    InForceAmong(f, SearchOrder)
  }

  /** The clauses of the filters ks, in order. */
  function ClausesFor(ks: seq<Filter>): (wh: seq<Clause>)
    ensures |wh| == |ks| && forall i | 0 <= i < |ks| :: wh[i] == ClauseOf(ks[i])
  {
    seq(|ks|, i requires 0 <= i < |ks| => ClauseOf(ks[i]))
  }

  /** The values bound to the clauses of the filters ks, in order. */
  function ParamsFor(f: Filters, ks: seq<Filter>): (ps: seq<Param>)
    ensures |ps| == |ks| && forall i | 0 <= i < |ks| :: ps[i] == ParamOf(f, ks[i])
  {
    seq(|ks|, i requires 0 <= i < |ks| => ParamOf(f, ks[i]))
  }

  /** Picking among the first n + 1 filters of SearchOrder: the pick among the first n, and the next if in force. */
  lemma NextFilter(f: Filters, n: nat)
    requires n < |SearchOrder|
    ensures InForceAmong(f, SearchOrder[..n + 1])
         == InForceAmong(f, SearchOrder[..n]) + Opt(InForce(f, SearchOrder[n]), SearchOrder[n])
  {
    assert SearchOrder[..n + 1][..n] == SearchOrder[..n];
  }

  /** The filters in force, listed one by one in SearchOrder. */
  lemma PlannedFiltersUnrolled(f: Filters)
    ensures PlannedFilters(f)
         == Opt(InForce(f, ByDistrict), ByDistrict) + Opt(InForce(f, ByDay), ByDay) + Opt(InForce(f, ByMobile), ByMobile)
          + Opt(InForce(f, ByOpening), ByOpening) + Opt(InForce(f, ByClosing), ByClosing)
  {
    assert SearchOrder[..0] == [];
    NextFilter(f, 0);
    NextFilter(f, 1);
    NextFilter(f, 2);
    NextFilter(f, 3);
    NextFilter(f, 4);
    assert SearchOrder[..5] == SearchOrder;
  }

  lemma ForConcat(f: Filters, a: seq<Filter>, b: seq<Filter>)
    ensures ClausesFor(a + b) == ClausesFor(a) + ClausesFor(b)
    ensures ParamsFor(f, a + b) == ParamsFor(f, a) + ParamsFor(f, b)
  {
  }

  lemma OptFor(f: Filters, b: bool, k: Filter)
    ensures ClausesFor(Opt(b, k)) == Opt(b, ClauseOf(k))
    ensures ParamsFor(f, Opt(b, k)) == Opt(b, ParamOf(f, k))
  {
  }

  /** The clauses the handler pushes are those of the filters in force, taken in SearchOrder. */
  lemma PlannedClausesSelection(f: Filters)
    ensures PlannedClauses(f) == ClausesFor(PlannedFilters(f))
  {
    PlannedFiltersUnrolled(f);
    var o1, o2, o3 := Opt(f.district.Some?, ByDistrict), Opt(f.day.Some?, ByDay), Opt(f.mobile.Some?, ByMobile);
    var o4, o5 := Opt(f.openAt.Some?, ByOpening), Opt(f.openAt.Some?, ByClosing);
    OptFor(f, f.district.Some?, ByDistrict);
    OptFor(f, f.day.Some?, ByDay);
    OptFor(f, f.mobile.Some?, ByMobile);
    OptFor(f, f.openAt.Some?, ByOpening);
    OptFor(f, f.openAt.Some?, ByClosing);
    ForConcat(f, o1, o2);
    ForConcat(f, o1 + o2, o3);
    ForConcat(f, o1 + o2 + o3, o4);
    ForConcat(f, o1 + o2 + o3 + o4, o5);
  }

  /** The values the handler pushes are those of the filters in force, taken in SearchOrder. */
  lemma PlannedParamsSelection(f: Filters)
    ensures PlannedParams(f) == ParamsFor(f, PlannedFilters(f))
  {
    PlannedFiltersUnrolled(f);
    var o1, o2, o3 := Opt(f.district.Some?, ByDistrict), Opt(f.day.Some?, ByDay), Opt(f.mobile.Some?, ByMobile);
    var o4, o5 := Opt(f.openAt.Some?, ByOpening), Opt(f.openAt.Some?, ByClosing);
    OptFor(f, f.district.Some?, ByDistrict);
    OptFor(f, f.day.Some?, ByDay);
    OptFor(f, f.mobile.Some?, ByMobile);
    OptFor(f, f.openAt.Some?, ByOpening);
    OptFor(f, f.openAt.Some?, ByClosing);
    ForConcat(f, o1, o2);
    ForConcat(f, o1 + o2, o3);
    ForConcat(f, o1 + o2 + o3, o4);
    ForConcat(f, o1 + o2 + o3 + o4, o5);
  }

  /**
   * The clauses and values the handler pushes are those of the filters in
   * force, taken in SearchOrder: the pushing builder and the selection agree.
   */
  lemma PlannedIsSelection(f: Filters)
    ensures PlannedClauses(f) == ClausesFor(PlannedFilters(f))
    ensures PlannedParams(f) == ParamsFor(f, PlannedFilters(f))
  {
    PlannedClausesSelection(f);
    PlannedParamsSelection(f);
  }

  /** The row's opening hours cover the time t (in seconds): open at t, and not yet closed. */
  predicate OpenAt(row: Row, t: int)
  {
    && CellAt(row, "openHour").CTime? && CellAt(row, "closeHour").CTime?
    && CellAt(row, "openHour").seconds <= t < CellAt(row, "closeHour").seconds
  }

  /** The rows a search asks for: every filter in force holds of the row. */
  predicate Wanted(f: Filters, row: Row)
  {
    && (f.district.Some? ==> CellAt(row, "districtEN") == CText(f.district.value))
    && (f.day.Some? ==> CellAt(row, "dayOfWeekCode") == CInt(f.day.value))
    && (f.mobile.Some? ==> CellAt(row, "mobileCode") == CText(f.mobile.value))
    && (f.openAt.Some? ==> ClockSeconds(f.openAt.value).Some? && OpenAt(row, ClockSeconds(f.openAt.value).value))
  }

  /** A row is wanted exactly when it satisfies the clause of every filter in force. */
  lemma WantedByFilters(f: Filters, row: Row)
    requires f.openAt.Some? ==> IsClock(f.openAt.value)
    ensures Wanted(f, row) <==> forall k | InForce(f, k) :: Satisfies(row, ClauseOf(k), ParamOf(f, k))
  {
    if f.openAt.Some? {
      var t := ClockSeconds(f.openAt.value).value;
      assert Satisfies(row, ClauseOf(ByOpening), ParamOf(f, ByOpening))
         <==> CellAt(row, "openHour").CTime? && CellAt(row, "openHour").seconds <= t;
      assert Satisfies(row, ClauseOf(ByClosing), ParamOf(f, ByClosing))
         <==> CellAt(row, "closeHour").CTime? && CellAt(row, "closeHour").seconds > t;
    }
    if forall k | InForce(f, k) :: Satisfies(row, ClauseOf(k), ParamOf(f, k)) {
      if f.district.Some? { assert Satisfies(row, ClauseOf(ByDistrict), ParamOf(f, ByDistrict)); }
      if f.day.Some? { assert Satisfies(row, ClauseOf(ByDay), ParamOf(f, ByDay)); }
      if f.mobile.Some? { assert Satisfies(row, ClauseOf(ByMobile), ParamOf(f, ByMobile)); }
      if f.openAt.Some? {
        assert Satisfies(row, ClauseOf(ByOpening), ParamOf(f, ByOpening));
        assert Satisfies(row, ClauseOf(ByClosing), ParamOf(f, ByClosing));
      }
    }
  }

  /** The clauses of the search select exactly the wanted rows. */
  lemma PlannedSelects(f: Filters)
    requires f.openAt.Some? ==> IsClock(f.openAt.value)
    ensures |PlannedClauses(f)| == |PlannedParams(f)|
    ensures forall row :: Selects(row, PlannedClauses(f), PlannedParams(f)) <==> Wanted(f, row)
  {
    PlannedIsSelection(f);
    InForceAmongMembers(f, SearchOrder);
    var ks, wh, ps := PlannedFilters(f), PlannedClauses(f), PlannedParams(f);
    forall row
      ensures Selects(row, wh, ps) <==> Wanted(f, row)
    {
      WantedByFilters(f, row);
      if Selects(row, wh, ps) {
        forall k | InForce(f, k)
          ensures Satisfies(row, ClauseOf(k), ParamOf(f, k))
        {
          assert SearchOrder[Rank(k)] == k;
          var i :| 0 <= i < |ks| && ks[i] == k;
          assert Satisfies(row, wh[i], ps[i]);
        }
      }
    }
  }

  /**
   * The planned clauses come in the fixed order districtEN, dayOfWeekCode,
   * mobileCode, openHour, closeHour; there is one exactly for each filter in
   * force (the two hour clauses together, for openAt), bound to its value.
   */
  lemma PlannedOrder(f: Filters)
    ensures |PlannedClauses(f)| == |PlannedParams(f)| == |PlannedFilters(f)|
    ensures Ordered(PlannedFilters(f))
    ensures forall k :: k in PlannedFilters(f) <==> InForce(f, k)
    ensures forall i | 0 <= i < |PlannedFilters(f)| ::
      PlannedClauses(f)[i] == ClauseOf(PlannedFilters(f)[i]) && PlannedParams(f)[i] == ParamOf(f, PlannedFilters(f)[i])
  {
    PlannedIsSelection(f);
    assert forall i, j | 0 <= i < j < |SearchOrder| :: Rank(SearchOrder[i]) < Rank(SearchOrder[j]);
    InForceAmongOrdered(f, SearchOrder);
    InForceAmongMembers(f, SearchOrder);
    forall k: Filter ensures k in SearchOrder {
      assert SearchOrder[Rank(k)] == k;
    }
  }

  /** Every planned clause names a plain column, so the WHERE text holds one `?` per bound value. */
  lemma PlannedMarks(f: Filters)
    ensures forall i | 0 <= i < |PlannedClauses(f)| :: PlainName(PlannedClauses(f)[i].column)
    ensures Count(WhereSql(PlannedClauses(f)), '?') == |PlannedParams(f)|
  {
    PlannedIsSelection(f);
    WhereSqlMarks(PlannedClauses(f));
  }

  /** A search without filters has no WHERE part at all. */
  lemma NoFiltersNoWhere(q: SearchQuery)
    ensures WhereSql(PlannedClauses(FiltersOf(q))) == ""
        <==> !Given(q.districtEN) && DayFilterOf(q.dayOfWeekCode).None? && !Given(q.mobileCode) && OpenAtTime(q).None?
  {
    var wh := PlannedClauses(FiltersOf(q));
    if wh != [] {
      assert WhereSql(wh)[..6] == "WHERE ";
    }
  }

  /** An openAt that normHHMM rejects filters nothing: the search is the one without it. */
  lemma RejectedOpenAtDropped(q: SearchQuery)
    requires q.openAt.Some? && NormHHMM(Str(q.openAt.value)).None?
    ensures FiltersOf(q) == FiltersOf(q.(openAt := None))
  {
  }

  /**
   * The opening-hours window is half open: a row that closes exactly at the
   * openAt time is not open then, one that opens exactly then (and closes
   * later) is.
   */
  lemma HoursWindowHalfOpen(t: string, row: Row)
    requires IsClock(t)
    requires CellAt(row, "openHour").CTime? && CellAt(row, "closeHour").CTime?
    ensures CellAt(row, "closeHour").seconds == ClockSeconds(t).value ==> !OpenAt(row, ClockSeconds(t).value)
    ensures (CellAt(row, "openHour").seconds == ClockSeconds(t).value
             && CellAt(row, "closeHour").seconds > CellAt(row, "openHour").seconds) ==> OpenAt(row, ClockSeconds(t).value)
  {
  }

  /** Every openAt time in force is a normalised time. */
  lemma FiltersOfOpenAt(q: SearchQuery)
    ensures FiltersOf(q).openAt.Some? <==> Given(q.openAt) && NormHHMM(Str(q.openAt.value)).Some?
    ensures FiltersOf(q).openAt.Some? ==> IsClock(FiltersOf(q).openAt.value)
  {
  }

  /**
   * The statement planned for filters whose time is normalised is well
   * formed, holds one placeholder per bound value, and selects exactly the
   * rows every filter in force wants.
   */
  lemma PlannedStatementSound(f: Filters)
    requires f.openAt.Some? ==> IsClock(f.openAt.value)
    ensures var st := SelectRows(PlannedClauses(f), PlannedParams(f));
      && |PlannedClauses(f)| == |PlannedParams(f)|
      && (forall row :: Selects(row, PlannedClauses(f), PlannedParams(f)) <==> Wanted(f, row))
      && WellFormed(st) && Count(StatementText(st), '?') == |Bound(st)|
  {
    PlannedMarks(f);
    PlaceholdersMatch(SelectRows(PlannedClauses(f), PlannedParams(f)));
    PlannedSelects(f);
  }

  /** The statement any search query sends, once past the day check, is sound in the same sense. */
  lemma SearchStatementSound(q: SearchQuery)
    ensures var f := FiltersOf(q);
      var st := SelectRows(PlannedClauses(f), PlannedParams(f));
      && |PlannedClauses(f)| == |PlannedParams(f)|
      && (forall row :: Selects(row, PlannedClauses(f), PlannedParams(f)) <==> Wanted(f, row))
      && WellFormed(st) && Count(StatementText(st), '?') == |Bound(st)|
  {
    FiltersOfOpenAt(q);
    PlannedStatementSound(FiltersOf(q));
  }

  /**
   * GET /mobilepost/search and GET /mobilepost: a dayOfWeekCode that is not
   * an integer 1..7 is refused before any query; otherwise the one SELECT
   * with the planned clauses is sent, and its rows are returned as they are
   * (an empty array included) or a failure becomes a 500.
   */
  method HandleSearch(q: SearchQuery, reply: Reply<seq<Row>>) returns (h: Handled)
    ensures DayOf(q.dayOfWeekCode).BadDay? ==> h == Handled([], Response(400, Text("dayOfWeekCode must be 1..7")))
    ensures !DayOf(q.dayOfWeekCode).BadDay? ==>
      h.sent == [SelectRows(PlannedClauses(FiltersOf(q)), PlannedParams(FiltersOf(q)))]
    ensures !DayOf(q.dayOfWeekCode).BadDay? && reply.Answered? ==> h.response == Response(200, RowsJson(reply.value))
    ensures !DayOf(q.dayOfWeekCode).BadDay? && reply.Raised? ==> h.response == Response(500, Text("Database error"))
  {
    var refused, wh, params := BuildSearch(q);
    if refused {
      return Handled([], Response(400, Text("dayOfWeekCode must be 1..7")));
    }
    var response := match reply
      case Answered(rows) => Response(200, RowsJson(rows))
      case Raised(_) => Response(500, Text("Database error"));
    h := Handled([SelectRows(wh, params)], response);
  }

  // ---------------------------------------------------------------------
  // GET /mobilepost/:id

  /** The 400 reply every `:id` route gives to an id that is not a positive integer. */
  const InvalidId := Handled([], Response(400, Text("Invalid ID")))

  /**
   * GET /mobilepost/:id: an invalid id is refused before any query;
   * otherwise the row with that id is looked up, and no row is a 404.
   */
  function HandleGetOne(param: string, reply: Reply<seq<Row>>): (h: Handled)
    ensures ParseId(param).None? ==> h == InvalidId
    ensures ParseId(param).Some? ==> h.sent == [SelectOne(ParseId(param).value)]
    ensures ParseId(param).Some? ==>
      (h.response.status == 200 <==> reply.Answered? && reply.value != [])
    ensures h.response.status == 200 ==> h.response.body == RowJson(reply.value[0])
    ensures ParseId(param).Some? && reply == Answered([]) ==> h.response == Response(404, Text("Not found"))
    ensures ParseId(param).Some? && reply.Raised? ==> h.response == Response(500, Text("Database error"))
  {
    match ParseId(param)
    case None => InvalidId
    case Some(id) =>
      var response := match reply
        case Raised(_) => Response(500, Text("Database error"))
        case Answered(rows) => if rows == [] then Response(404, Text("Not found")) else Response(200, RowJson(rows[0]));
      Handled([SelectOne(id)], response)
  }

  /** Over a table, GET /mobilepost/:id answers the stored row when the id is there, and 404 when it is not. */
  lemma GetOneFromTable(t: Table, param: string)
    requires ParseId(param).Some?
    ensures var id := ParseId(param).value;
      var h := HandleGetOne(param, Answered(RowsWithId(t, id)));
      && (id in t ==> h.response == Response(200, RowJson(t[id])))
      && (id !in t ==> h.response == Response(404, Text("Not found")))
  {
  }

  // ---------------------------------------------------------------------
  // Request bodies

  /** The entries of a parsed JSON body, in Object.entries order; absent or empty bodies have none. */
  type Entries = seq<(string, JsValue)>

  /** JSON.parse keeps one entry per key. */
  predicate DistinctKeys(body: Entries)
  {
    forall i, j | 0 <= i < j < |body| :: body[i].0 != body[j].0
  }

  /** body[k]: the value of key k, undefined when the body has no such key. */
  function Field(body: Entries, k: string): (v: JsValue)
    ensures (forall i | 0 <= i < |body| :: body[i].0 != k) ==> v.Undefined?
  {
    if body == [] then Undefined
    else if body[0].0 == k then body[0].1
    else Field(body[1..], k)
  }

  /** In a body with distinct keys, the value of a key is the one its entry holds. */
  lemma {:induction false} FieldOfEntry(body: Entries, i: nat)
    requires DistinctKeys(body) && i < |body|
    ensures Field(body, body[i].0) == body[i].1
  {
    if i > 0 {
      FieldOfEntry(body[1..], i - 1);
    }
  }

  // ---------------------------------------------------------------------
  // POST /mobilepost

  const MissingFields := Response(400, Text("Missing required fields: mobileCode, dayOfWeekCode, seq"))

  /** A falsy mobileCode, or a dayOfWeekCode or seq that is null or absent, refuses the insert. */
  predicate MissingRequired(body: Entries)
  {
    !Truthy(Field(body, "mobileCode")) || IsNullish(Field(body, "dayOfWeekCode")) || IsNullish(Field(body, "seq"))
  }

  /**
   * The nine values bound to the INSERT, column by column: mobileCode as
   * given, Number() of dayOfWeekCode and seq, and every other column as
   * given or null.
   */
  function InsertValues(body: Entries): (vs: seq<Param>)
  {
    [Bind(Field(body, "mobileCode")), BindNumber(NumberOf(Field(body, "dayOfWeekCode"))),
     BindNumber(NumberOf(Field(body, "seq")))]
    + seq(6, i requires 0 <= i < 6 => Bind(Field(body, InsertColumns[i + 3])))
  }

  /**
   * POST /mobilepost: a body without the required fields is refused before
   * any query; otherwise one INSERT is sent, and an error whose message
   * mentions "Duplicate" is a 409 and any other a 500.
   */
  function HandleCreate(body: Entries, reply: Reply<int>): (h: Handled)
    ensures MissingRequired(body) ==> h == Handled([], MissingFields)
    ensures !MissingRequired(body) ==> h.sent == [InsertOne(InsertValues(body))]
    ensures !MissingRequired(body) && reply.Answered? ==> h.response == Response(200, Ack("Record inserted", reply.value))
    ensures !MissingRequired(body) && reply.Raised? ==>
      h.response.status == (if Contains(reply.message, "Duplicate") then 409 else 500)
  {
    if MissingRequired(body) then Handled([], MissingFields)
    else
      var response := match reply
        case Answered(id) => Response(200, Ack("Record inserted", id))
        case Raised(m) =>
          if Contains(m, "Duplicate") then Response(409, Text("Duplicate (mobileCode, dayOfWeekCode, seq)"))
          else Response(500, Text("Insert error"));
      Handled([InsertOne(InsertValues(body))], response)
  }

  /**
   * The INSERT binds one value per column: the required ones as given or
   * converted by Number(), and every optional column the body's value for
   * it, passed through without normalisation (openHour and closeHour
   * included), or null when the body lacks it.
   */
  lemma CreateValues(body: Entries)
    ensures |InsertValues(body)| == |InsertColumns| && WellFormed(InsertOne(InsertValues(body)))
    ensures InsertValues(body)[0] == Bind(Field(body, "mobileCode"))
    ensures InsertValues(body)[1] == BindNumber(NumberOf(Field(body, "dayOfWeekCode")))
    ensures InsertValues(body)[2] == BindNumber(NumberOf(Field(body, "seq")))
    ensures forall i | 3 <= i < |InsertColumns| :: InsertValues(body)[i] == Bind(Field(body, InsertColumns[i]))
    ensures forall i | 3 <= i < |InsertColumns| ::
      (forall j | 0 <= j < |body| :: body[j].0 != InsertColumns[i]) ==> InsertValues(body)[i] == PNull
  {
  }

  /** The required fields are checked with `== null`, not truthiness: a day code 0 or a seq 0 passes. */
  lemma CreateAcceptsZero(code: string)
    requires code != ""
    ensures !MissingRequired([("mobileCode", Str(code)), ("dayOfWeekCode", Num("0")), ("seq", Num("0"))])
  {
    var body := [("mobileCode", Str(code)), ("dayOfWeekCode", Num("0")), ("seq", Num("0"))];
    assert DistinctKeys(body);
    FieldOfEntry(body, 0);
    FieldOfEntry(body, 1);
    FieldOfEntry(body, 2);
  }

  /** A mobileCode that is the empty string is missing. */
  lemma CreateRefusesEmptyCode(body: Entries)
    requires Field(body, "mobileCode") == Str("")
    ensures HandleCreate(body, Answered(1)) == Handled([], MissingFields)
  {
  }

  // ---------------------------------------------------------------------
  // PUT /mobilepost/:id

  /** The body entries the update keeps: those whose key is on the allow-list, in body order. */
  function Kept(body: Entries): Entries
  {
    if body == [] then []
    else Kept(body[..|body| - 1]) + Opt(body[|body| - 1].0 in UpdatableFields, body[|body| - 1])
  }

  /** The value the update binds for a kept entry: a time is normalised (null stays null), anything else is passed through. */
  function UpdateValue(k: string, v: JsValue): Param
  {
    if IsTimeField(k) then (if IsNullish(v) then PNull else TextParam(NormHHMM(v)))
    else Bind(v)
  }

  /** An entry the update refuses: a non-null openHour or closeHour that normHHMM rejects. */
  predicate BadEntry(e: (string, JsValue))
  {
    IsTimeField(e.0) && !IsNullish(e.1) && NormHHMM(e.1).None?
  }

  /** The index of the first entry the update refuses, if any. */
  function FirstBadTime(body: Entries): (r: Option<nat>)
    ensures r.Some? ==> r.value < |body| && BadEntry(body[r.value])
    ensures r.Some? ==> forall j | 0 <= j < r.value :: !BadEntry(body[j])
    ensures r.None? ==> forall j | 0 <= j < |body| :: !BadEntry(body[j])
  {
    if body == [] then None
    else if BadEntry(body[0]) then Some(0)
    else
      match FirstBadTime(body[1..])
      case None =>
        NoBadEntryShift(body, |body| - 1);
        None
      case Some(k) =>
        NoBadEntryShift(body, k);
        assert body[1..][k] == body[k + 1];
        Some(k + 1)
  }

  /** No entry among the first n + 1 is refused when the first is not and none of the n after it is. */
  lemma NoBadEntryShift(body: Entries, n: nat)
    requires 0 < |body| && n < |body| && !BadEntry(body[0])
    requires forall j | 0 <= j < n :: !BadEntry(body[1..][j])
    ensures forall j | 0 <= j < n + 1 :: !BadEntry(body[j])
  {
    HoldsShifted(body, e => !BadEntry(e), n);
  }

  function KeysOf(es: Entries): (ks: seq<string>)
    ensures |ks| == |es| && forall i | 0 <= i < |es| :: ks[i] == es[i].0
  {
    seq(|es|, i requires 0 <= i < |es| => es[i].0)
  }

  function ValuesOf(es: Entries): (vs: seq<Param>)
    ensures |vs| == |es| && forall i | 0 <= i < |es| :: vs[i] == UpdateValue(es[i].0, es[i].1)
  {
    seq(|es|, i requires 0 <= i < |es| => UpdateValue(es[i].0, es[i].1))
  }

  /**
   * The body of the loop for an allowed entry: a time is normalised, and
   * refused when it is not null and normHHMM rejects it; any other value is
   * bound as given, or null.
   */
  method EntryValue(k: string, v: JsValue) returns (refused: bool, p: Param)
    ensures refused <==> BadEntry((k, v))
    ensures !refused ==> p == UpdateValue(k, v)
  {
    refused, p := false, PNull;
    if k == "openHour" || k == "closeHour" {
      var t := if IsNullish(v) then None else NormHHMM(v);
      if !IsNullish(v) && t.None? {
        refused := true;
        return;
      }
      p := TextParam(t);
    } else {
      p := Bind(v);
    }
  }

  /**
   * The loop over the body's entries: entries off the allow-list are
   * skipped, the first time that normHHMM rejects stops the loop with that
   * field's name, and every other entry adds `k = ?` and its value.
   */
  method BuildUpdate(body: Entries) returns (bad: Option<string>, sets: seq<string>, values: seq<Param>)
    ensures bad.Some? <==> FirstBadTime(body).Some?
    ensures bad.Some? ==> bad.value == body[FirstBadTime(body).value].0
    ensures bad.None? ==> sets == KeysOf(Kept(body)) && values == ValuesOf(Kept(body))
  {
    bad, sets, values := None, [], [];
    var i := 0;
    while i < |body|
      invariant 0 <= i <= |body|
      invariant forall j | 0 <= j < i :: !BadEntry(body[j])
      invariant sets == KeysOf(Kept(body[..i])) && values == ValuesOf(Kept(body[..i]))
    {
      var (k, v) := body[i];
      assert body[i] == (k, v);
      KeptNext(body, i);
      TimeFieldsUpdatable();
      if k in UpdatableFields {
        var refused, p := EntryValue(k, v);
        if refused {
          return Some(k), sets, values;
        }
        sets, values := sets + [k], values + [p];
      }
      NoBadEntryNext(body, i);
      i := i + 1;
    }
    assert body[..i] == body;
  }

  /** No entry up to i is refused when none before it is and entry i is not. */
  lemma NoBadEntryNext(body: Entries, i: nat)
    requires i < |body| && !BadEntry(body[i])
    requires forall j | 0 <= j < i :: !BadEntry(body[j])
    ensures forall j | 0 <= j < i + 1 :: !BadEntry(body[j])
  {
  }

  /** One more entry of the body: the kept keys and values grow by that entry's, when its key is allowed. */
  lemma KeptNext(body: Entries, i: nat)
    requires i < |body|
    ensures KeysOf(Kept(body[..i + 1])) == KeysOf(Kept(body[..i])) + Opt(body[i].0 in UpdatableFields, body[i].0)
    ensures ValuesOf(Kept(body[..i + 1]))
         == ValuesOf(Kept(body[..i])) + Opt(body[i].0 in UpdatableFields, UpdateValue(body[i].0, body[i].1))
  {
    assert body[..i + 1][..i] == body[..i];
    var prev := Kept(body[..i]);
    var next := prev + Opt(body[i].0 in UpdatableFields, body[i]);
    assert Kept(body[..i + 1]) == next;
    assert KeysOf(next) == KeysOf(prev) + Opt(body[i].0 in UpdatableFields, body[i].0);
    assert ValuesOf(next) == ValuesOf(prev) + Opt(body[i].0 in UpdatableFields, UpdateValue(body[i].0, body[i].1));
  }

  /** Both time fields are on the allow-list. */
  lemma TimeFieldsUpdatable()
    ensures forall k | IsTimeField(k) :: k in UpdatableFields
  {
  }

  /** None of the columns that identify a stop is on the allow-list. */
  lemma ProtectedColumnsNotUpdatable()
    ensures "id" !in UpdatableFields && "mobileCode" !in UpdatableFields
    ensures "dayOfWeekCode" !in UpdatableFields && "seq" !in UpdatableFields
  {
  }

  /** Keeping the allowed entries keeps exactly those entries of the body whose key is allowed. */
  lemma {:induction false} KeptMembers(body: Entries)
    ensures forall e :: e in Kept(body) <==> e in body && e.0 in UpdatableFields
  {
    if body != [] {
      var init := body[..|body| - 1];
      KeptMembers(init);
      assert body == init + [body[|body| - 1]];
    }
  }

  /** Keeping the allowed entries of a body with distinct keys gives distinct keys. */
  lemma {:induction false} KeptDistinct(body: Entries)
    requires DistinctKeys(body)
    ensures DistinctKeys(Kept(body))
  {
    if body != [] {
      var init, last := body[..|body| - 1], body[|body| - 1];
      assert DistinctKeys(init);
      KeptDistinct(init);
      KeptMembers(init);
      forall e | e in Kept(init) ensures e.0 != last.0 {
        var m :| 0 <= m < |init| && init[m] == e;
      }
    }
  }

  /**
   * Every column the update sets is on the allow-list, so never id,
   * mobileCode, dayOfWeekCode or seq; every allowed key of the body is set;
   * and with distinct body keys no column is set twice.
   */
  lemma UpdateSetsAllowed(body: Entries)
    ensures forall k | k in KeysOf(Kept(body)) :: k in UpdatableFields
    ensures forall i | 0 <= i < |Kept(body)| :: KeysOf(Kept(body))[i] in UpdatableFields
    ensures forall k | k in KeysOf(Kept(body)) :: k != "id" && k != "mobileCode" && k != "dayOfWeekCode" && k != "seq"
    ensures forall i | 0 <= i < |body| && body[i].0 in UpdatableFields :: body[i].0 in KeysOf(Kept(body))
    ensures DistinctKeys(body) ==> forall i, j | 0 <= i < j < |KeysOf(Kept(body))| :: KeysOf(Kept(body))[i] != KeysOf(Kept(body))[j]
  {
    KeptMembers(body);
    ProtectedColumnsNotUpdatable();
    var kept := Kept(body);
    forall k | k in KeysOf(kept) ensures k in UpdatableFields {
      var i :| 0 <= i < |kept| && KeysOf(kept)[i] == k;
      assert kept[i] in kept;
    }
    forall i | 0 <= i < |body| && body[i].0 in UpdatableFields
      ensures body[i].0 in KeysOf(kept)
    {
      assert body[i] in body;
      var m :| 0 <= m < |kept| && kept[m] == body[i];
      assert KeysOf(kept)[m] == body[i].0;
    }
    if DistinctKeys(body) {
      KeptDistinct(body);
    }
  }

  /**
   * With distinct body keys and no refused time, the value bound for each
   * set column is the body's value for that key: a time normalised to
   * HH:MM (or null for null), anything else as given.
   */
  lemma UpdateValuesFaithful(body: Entries)
    requires DistinctKeys(body) && FirstBadTime(body).None?
    ensures forall i | 0 <= i < |Kept(body)| ::
      var k, p := KeysOf(Kept(body))[i], ValuesOf(Kept(body))[i];
      && (!IsTimeField(k) ==> p == Bind(Field(body, k)))
      && (IsTimeField(k) && IsNullish(Field(body, k)) ==> p == PNull)
      && (IsTimeField(k) && !IsNullish(Field(body, k)) ==>
            NormHHMM(Field(body, k)).Some? && p == PStr(NormHHMM(Field(body, k)).value) && IsClock(p.s))
  {
    KeptMembers(body);
    var kept := Kept(body);
    forall i | 0 <= i < |kept|
      ensures Field(body, kept[i].0) == kept[i].1 && !BadEntry(kept[i])
    {
      assert kept[i] in kept;
      var m :| 0 <= m < |body| && body[m] == kept[i];
      FieldOfEntry(body, m);
    }
  }

  /** The UPDATE is well formed and holds one placeholder per set column, plus the id's, which is bound last. */
  lemma UpdateStatementSound(body: Entries, id: int)
    ensures var st := UpdateOne(KeysOf(Kept(body)), ValuesOf(Kept(body)), id);
      && WellFormed(st) && Count(StatementText(st), '?') == |Bound(st)| == |Kept(body)| + 1
      && Bound(st)[|Kept(body)|] == PInt(id)
  {
    UpdateSetsAllowed(body);
    UpdatableFieldsArePlain();
    var st := UpdateOne(KeysOf(Kept(body)), ValuesOf(Kept(body)), id);
    PlaceholdersMatch(st);
  }

  /**
   * PUT /mobilepost/:id: an invalid id, a refused time or a body with no
   * allowed key is a 400 before any query; otherwise one UPDATE is sent,
   * and zero affected rows is a 404.
   */
  method HandleUpdate(param: string, body: Entries, reply: Reply<nat>) returns (h: Handled)
    ensures ParseId(param).None? ==> h == InvalidId
    ensures ParseId(param).Some? && FirstBadTime(body).Some? ==>
      h == Handled([], Response(400, Text("Invalid " + body[FirstBadTime(body).value].0 + " (use HH:MM)")))
    ensures ParseId(param).Some? && FirstBadTime(body).None? && Kept(body) == [] ==>
      h == Handled([], Response(400, Text("No valid fields to update")))
    ensures ParseId(param).Some? && FirstBadTime(body).None? && Kept(body) != [] ==>
      && h.sent == [UpdateOne(KeysOf(Kept(body)), ValuesOf(Kept(body)), ParseId(param).value)]
      && h.response == UpdateResponse(ParseId(param).value, reply)
  {
    var id := ParseId(param);
    if id.None? {
      return InvalidId;
    }
    var bad, sets, values := BuildUpdate(body);
    if bad.Some? {
      return Handled([], Response(400, Text("Invalid " + bad.value + " (use HH:MM)")));
    }
    if |sets| == 0 {
      return Handled([], Response(400, Text("No valid fields to update")));
    }
    h := Handled([UpdateOne(sets, values, id.value)], UpdateResponse(id.value, reply));
  }

  /** The reply to an UPDATE that was sent: zero affected rows is a 404. */
  function UpdateResponse(id: int, reply: Reply<nat>): (r: Response)
    ensures r.status == 200 <==> reply.Answered? && reply.value > 0
    ensures r.status == 200 ==> r.body == Ack("Record updated", id)
    ensures reply.Answered? && reply.value == 0 ==> r == Response(404, Text("Not found"))
    ensures reply.Raised? ==> r == Response(500, Text("Update error"))
  {
    match reply
    case Raised(_) => Response(500, Text("Update error"))
    case Answered(n) => if n == 0 then Response(404, Text("Not found")) else Response(200, Ack("Record updated", id))
  }

  /** Over a table, an update of an id that is not there is a 404, and of one that is, a success. */
  lemma UpdateOnTable(t: Table, id: int)
    ensures UpdateResponse(id, Answered(MatchedRows(t, id))).status == if id in t then 200 else 404
  {
  }

  // ---------------------------------------------------------------------
  // DELETE /mobilepost/:id

  /** DELETE /mobilepost/:id: an invalid id is refused before any query; zero affected rows is a 404. */
  function HandleDelete(param: string, reply: Reply<nat>): (h: Handled)
    ensures ParseId(param).None? ==> h == InvalidId
    ensures ParseId(param).Some? ==> h.sent == [DeleteOne(ParseId(param).value)]
    ensures ParseId(param).Some? ==> (h.response.status == 200 <==> reply.Answered? && reply.value > 0)
    ensures ParseId(param).Some? && reply.Answered? && reply.value == 0 ==> h.response == Response(404, Text("Not found"))
    ensures ParseId(param).Some? && reply.Raised? ==> h.response == Response(500, Text("Delete error"))
  {
    match ParseId(param)
    case None => InvalidId
    case Some(id) =>
      var response := match reply
        case Raised(_) => Response(500, Text("Delete error"))
        case Answered(n) => if n == 0 then Response(404, Text("Not found")) else Response(200, Ack("Record deleted", id));
      Handled([DeleteOne(id)], response)
  }

  /**
   * Over a table: deleting a stored id succeeds and removes it, and
   * deleting it again, or reading it afterwards, is a 404.
   */
  lemma DeleteTwice(t: Table, param: string)
    requires ParseId(param).Some?
    ensures var id := ParseId(param).value;
      var (n1, t1) := DeleteRow(t, id);
      var (n2, t2) := DeleteRow(t1, id);
      && HandleDelete(param, Answered(n1)).response.status == (if id in t then 200 else 404)
      && id !in t1 && t1.Keys == t.Keys - {id}
      && HandleDelete(param, Answered(n2)).response == Response(404, Text("Not found"))
      && HandleGetOne(param, Answered(RowsWithId(t1, id))).response == Response(404, Text("Not found"))
  {
  }

  // ---------------------------------------------------------------------
  // Routes

  /** The routes in the order they are registered: both search paths before `/mobilepost/:id`. */
  const ServerRoutes: seq<Route> := [
    Route(Get, [], Welcome),
    Route(Get, [Literal("mobilepost"), Literal("search")], Search),
    Route(Get, [Literal("mobilepost")], Search),
    Route(Get, [Literal("mobilepost"), Parameter], GetOne),
    Route(Post, [Literal("mobilepost")], Create),
    Route(Put, [Literal("mobilepost"), Parameter], Update),
    Route(Delete, [Literal("mobilepost"), Parameter], Remove)
  ]

  /** Both search paths reach the search handler, in any mix of letter case. */
  lemma ServerSearchRoutes(m: string, p: string)
    requires LowerAscii(m) == "mobilepost" && LowerAscii(p) == "search"
    ensures Dispatch(ServerRoutes, Get, [m, p]) == Some(Search)
    ensures Dispatch(ServerRoutes, Get, [m]) == Some(Search)
  {
    assert RouteMatches(ServerRoutes[1], Get, [m, p]);
    assert RouteMatches(ServerRoutes[2], Get, [m]);
  }

  /** Any other non-empty segment after /mobilepost reaches the `:id` handlers. */
  lemma ServerIdRoutes(m: string, p: string)
    requires LowerAscii(m) == "mobilepost" && p != "" && LowerAscii(p) != "search"
    ensures Dispatch(ServerRoutes, Get, [m, p]) == Some(GetOne)
    ensures Dispatch(ServerRoutes, Put, [m, p]) == Some(Update)
    ensures Dispatch(ServerRoutes, Delete, [m, p]) == Some(Remove)
  {
    assert !RouteMatches(ServerRoutes[1], Get, [m, p]) by {
      assert ServerRoutes[1].pattern[1] == Literal("search") && [m, p][1] == p;
      assert !SegmentMatches(Literal("search"), p);
    }
    assert RouteMatches(ServerRoutes[3], Get, [m, p]);
    assert RouteMatches(ServerRoutes[5], Put, [m, p]);
    assert RouteMatches(ServerRoutes[6], Delete, [m, p]);
  }
}
